/** What a chat bound to one plan can and cannot change, over every run of tool calls. */
module PlanToolTheorems {
  import opened Wrappers
  import opened Calendar
  import opened SqlUpdate
  import opened Dinners
  import opened PlanTools

  // ---- one call -------------------------------------------------------------

  /** The plan a rating belongs to is its dinner's. */
  predicate RatingOf(db: Db, d: int, plan: int) {
    d in db.ratings && d in db.dinners && db.dinners[d].week == plan
  }

  ghost predicate WeeksOutside(a: map<int, Week>, b: map<int, Week>, p: int) {
    forall w | w in a && w != p :: w in b && b[w] == a[w]
  }

  ghost predicate DinnersOutside(a: Rows, b: Rows, p: int) {
    (forall i | i in a && a[i].week != p :: i in b && b[i] == a[i])
    && forall i | i in b && b[i].week != p :: i in a && b[i] == a[i]
  }

  ghost predicate ExceptionsOutside(a: map<int, Exception>, b: map<int, Exception>, p: int) {
    (forall i | i in a && a[i].week != p :: i in b && b[i] == a[i])
    && forall i | i in b && b[i].week != p :: i in a && b[i] == a[i]
  }

  ghost predicate RetrosOutside(a: map<int, Retrospective>, b: map<int, Retrospective>, p: int) {
    (forall i | i in a && a[i].week != p :: i in b && b[i] == a[i])
    && forall i | i in b && b[i].week != p :: i in a && b[i] == a[i]
  }

  ghost predicate CartOutside(a: map<int, CartItem>, b: map<int, CartItem>, p: int) {
    (forall i | i in a && a[i].week != p :: i in b && b[i] == a[i])
    && forall i | i in b && b[i].week != p :: i in a && b[i] == a[i]
  }

  ghost predicate RatingsOutside(a: Db, b: Db, p: int) {
    (forall d | d in a.ratings && !RatingOf(a, d, p) :: d in b.ratings && b.ratings[d] == a.ratings[d])
    && forall d | d in b.ratings && !RatingOf(b, d, p) :: d in a.ratings && b.ratings[d] == a.ratings[d]
  }

  /** Every row outside plan `p` is the same in both states: no week, dinner, exception, rating,
      retrospective or cart item of another plan is changed, removed or added (new plans apart). */
  ghost predicate OutsideSame(a: Db, b: Db, p: int) {
    && WeeksOutside(a.weeks, b.weeks, p) && DinnersOutside(a.dinners, b.dinners, p)
    && ExceptionsOutside(a.exceptions, b.exceptions, p) && RetrosOutside(a.retros, b.retros, p)
    && CartOutside(a.cart, b.cart, p) && RatingsOutside(a, b, p)
  }

  ghost predicate DishesKept(a: Db, b: Db) {
    forall i | i in a.dishes :: i in b.dishes && b.dishes[i] == a.dishes[i]
  }

  predicate MenuSame(a: Db, b: Db) {
    a.dinners == b.dinners && a.exceptions == b.exceptions
  }

  lemma {:induction false} RatedKeys(ratings: map<int, Rating>, rs: seq<RatingInput>)
    ensures var m := Rated(ratings, rs);
            && (forall d | d in ratings :: d in m)
            && (forall d | d in m && (d !in ratings || m[d] != ratings[d]) ::
                  exists k :: 0 <= k < |rs| && rs[k].dinner == d)
  {
    if rs != [] {
      var init := rs[..|rs| - 1];
      RatedKeys(ratings, init);
      var m, n := Rated(ratings, rs), Rated(ratings, init);
      forall d | d in m && (d !in ratings || m[d] != ratings[d])
        ensures exists k :: 0 <= k < |rs| && rs[k].dinner == d
      {
        if d == rs[|rs| - 1].dinner {
          assert rs[|rs| - 1].dinner == d;
        } else {
          var k :| 0 <= k < |init| && init[k].dinner == d;
          assert rs[k].dinner == d;
        }
      }
    }
  }

  lemma {:induction false} ListedRows(db: Db, p: int, items: seq<Item>, snapshot: string -> string)
    requires Valid(db)
    ensures var b := ItemsListed(db, p, items, snapshot);
            && db.next <= b.next && IdsBelow(b.cart, b.next)
            && b.weeks == db.weeks && b.dinners == db.dinners && b.dishes == db.dishes && b.exceptions == db.exceptions
            && b.retros == db.retros && b.ratings == db.ratings
            && (forall i | i in db.cart :: i in b.cart && b.cart[i] == db.cart[i])
            && forall i | i in b.cart && i !in db.cart :: b.cart[i].week == p
    decreases |items|
  {
    if items != [] { ListedRows(db, p, items[..|items| - 1], snapshot); }
  }

  ghost predicate Kept(a: Db, b: Db, p: int) {
    Valid(b) && OutsideSame(a, b, p) && DishesKept(a, b) && (MenuSame(a, b) || Editable(a, p))
  }

  lemma Untouched(db: Db, p: int)
    requires Valid(db)
    ensures Kept(db, db, p)
  {
  }

  /** Tables a call leaves alone are in order; what is left to show is about the others. */
  lemma OnlyDinners(a: Db, b: Db, p: int)
    requires Valid(a) && a.next <= b.next && b.weeks == a.weeks && b.exceptions == a.exceptions
    requires b.retros == a.retros && b.cart == a.cart
    requires IdsBelow(b.dinners, b.next) && IdsBelow(b.dishes, b.next) && b.ratings.Keys <= b.dinners.Keys
    requires DinnersOutside(a.dinners, b.dinners, p) && RatingsOutside(a, b, p) && DishesKept(a, b)
    requires MenuSame(a, b) || Editable(a, p)
    ensures Kept(a, b, p)
  {
  }

  lemma OnlyExceptions(a: Db, b: Db, p: int)
    requires Valid(a) && a.next <= b.next && b.weeks == a.weeks && b.dinners == a.dinners && b.dishes == a.dishes
    requires b.retros == a.retros && b.cart == a.cart && b.ratings == a.ratings
    requires IdsBelow(b.exceptions, b.next) && ExceptionsOutside(a.exceptions, b.exceptions, p)
    requires MenuSame(a, b) || Editable(a, p)
    ensures Kept(a, b, p)
  {
  }

  lemma OnlyWeeks(a: Db, b: Db, p: int)
    requires Valid(a) && a.next <= b.next && b.dinners == a.dinners && b.dishes == a.dishes
    requires b.exceptions == a.exceptions && b.retros == a.retros && b.cart == a.cart && b.ratings == a.ratings
    requires IdsBelow(b.weeks, b.next) && StatusesKnown(b.weeks) && WeeksOutside(a.weeks, b.weeks, p)
    ensures Kept(a, b, p)
  {
  }

  lemma OnlyFeedback(a: Db, b: Db, p: int)
    requires Valid(a) && a.next <= b.next && b.weeks == a.weeks && b.dinners == a.dinners && b.dishes == a.dishes
    requires b.exceptions == a.exceptions && b.cart == a.cart
    requires IdsBelow(b.retros, b.next) && RetrosOutside(a.retros, b.retros, p)
    requires b.ratings.Keys <= b.dinners.Keys && RatingsOutside(a, b, p)
    ensures Kept(a, b, p)
  {
  }

  lemma OnlyCart(a: Db, b: Db, p: int)
    requires Valid(a) && a.next <= b.next && b.weeks == a.weeks && b.dinners == a.dinners && b.dishes == a.dishes
    requires b.exceptions == a.exceptions && b.retros == a.retros && b.ratings == a.ratings
    requires IdsBelow(b.cart, b.next) && CartOutside(a.cart, b.cart, p)
    ensures Kept(a, b, p)
  {
  }

  lemma AddDinnerKeeps(pg: Postgres, db: Db, p: int, c: ToolCall)
    requires Valid(db) && p > 0 && c.AddDinner?
    ensures Kept(db, DinnerAdded(pg, db, p, c).0, p)
  {
    hide Kept;
    OnlyDinners(db, DinnerAdded(pg, db, p, c).0, p);
  }

  lemma UpdateDinnerKeeps(db: Db, p: int, c: ToolCall)
    requires Valid(db) && p > 0 && c.UpdateDinner?
    ensures Kept(db, DinnerUpdated(db, p, c).0, p)
  {
    hide Kept;
    OnlyDinners(db, DinnerUpdated(db, p, c).0, p);
  }

  lemma DeleteDinnerKeeps(db: Db, p: int, d: int)
    requires Valid(db) && p > 0
    ensures Kept(db, DinnerDeleted(db, p, d).0, p)
  {
    hide Kept;
    OnlyDinners(db, DinnerDeleted(db, p, d).0, p);
  }

  lemma AddExceptionKeeps(db: Db, p: int, c: ToolCall)
    requires Valid(db) && p > 0 && c.AddException?
    ensures Kept(db, ExceptionAdded(db, p, c).0, p)
  {
    hide Kept;
    OnlyExceptions(db, ExceptionAdded(db, p, c).0, p);
  }

  lemma UpdateExceptionKeeps(db: Db, p: int, c: ToolCall)
    requires Valid(db) && p > 0 && c.UpdateException?
    ensures Kept(db, ExceptionUpdated(db, p, c).0, p)
  {
    hide Kept;
    OnlyExceptions(db, ExceptionUpdated(db, p, c).0, p);
  }

  lemma DeleteExceptionKeeps(db: Db, p: int, e: int)
    requires Valid(db) && p > 0
    ensures Kept(db, ExceptionDeleted(db, p, e).0, p)
  {
    hide Kept;
    OnlyExceptions(db, ExceptionDeleted(db, p, e).0, p);
  }

  lemma CreateWeekKeeps(pg: Postgres, db: Db, p: int, c: ToolCall)
    requires Valid(db) && p > 0 && c.CreateWeek?
    ensures Kept(db, Created(pg, db, c).0, p)
  {
    hide Kept;
    if Created(pg, db, c).1 {
      OnlyWeeks(db, Created(pg, db, c).0, p);
    } else {
      Untouched(db, p);
    }
  }

  lemma UpdatePlanKeeps(pg: Postgres, db: Db, p: int, c: ToolCall)
    requires Valid(db) && p > 0 && c.UpdatePlan?
    ensures Kept(db, Replanned(pg, db, p, c).0, p)
  {
    hide Kept;
    UpdatedWeeks(pg, db.weeks, p, c.update);
    var b := Replanned(pg, db, p, c).0;
    if b == db {
      Untouched(db, p);
    } else {
      OnlyWeeks(db, b, p);
    }
  }

  lemma UpdatedWeeks(pg: Postgres, weeks: map<int, Week>, id: int, u: WeekUpdate)
    requires StatusesKnown(weeks)
    ensures var r := WeekUpdated(pg, weeks, id, u);
            r.Some? ==> WeeksOutside(weeks, r.value.0, id) && r.value.0.Keys == weeks.Keys && StatusesKnown(r.value.0)
  {
  }

  lemma RecordKeeps(db: Db, p: int, c: ToolCall)
    requires Valid(db) && p > 0 && c.RecordRetrospective?
    ensures Kept(db, Recorded(db, p, c).0, p)
  {
    hide Kept;
    RatedInPlan(db, p, c);
    OnlyFeedback(db, Recorded(db, p, c).0, p);
  }

  lemma RatedInPlan(db: Db, p: int, c: ToolCall)
    requires Valid(db) && p > 0 && c.RecordRetrospective?
    ensures var b := Recorded(db, p, c).0;
            b.ratings.Keys <= db.dinners.Keys && RatingsOutside(db, b, p)
  {
    RatedKeys(db.ratings, c.ratings);
    var b := Recorded(db, p, c).0;
    forall d | d in b.ratings && (d !in db.ratings || b.ratings[d] != db.ratings[d])
      ensures d in db.dinners && db.dinners[d].week == p
    {
      var k :| 0 <= k < |c.ratings| && c.ratings[k].dinner == d;
      assert Ratable(db, p, c.ratings[k]);
    }
  }

  lemma ListedKeeps(db: Db, p: int, items: seq<Item>, snapshot: string -> string)
    requires Valid(db) && p > 0
    ensures Kept(db, ItemsListed(db, p, items, snapshot), p)
  {
    hide Kept;
    ListedRows(db, p, items, snapshot);
    OnlyCart(db, ItemsListed(db, p, items, snapshot), p);
  }

  lemma UnlistedKeeps(db: Db, p: int, code: Option<string>)
    requires Valid(db) && p > 0
    ensures Kept(db, Unlisted(db, p, code), p)
  {
    hide Kept;
    OnlyCart(db, Unlisted(db, p, code), p);
  }

  lemma ListedOneKeeps(db: Db, p: int, item: Item, snapshot: string)
    requires Valid(db) && p > 0
    ensures Kept(db, ItemListed(db, p, item, snapshot), p)
  {
    hide Kept;
    var b := ItemListed(db, p, item, snapshot);
    if b == db {
      Untouched(db, p);
    } else {
      assert IdsBelow(b.cart, b.next) && CartOutside(db.cart, b.cart, p);
      OnlyCart(db, b, p);
    }
  }

  /** One call in a chat bound to plan `p`: no row of another plan changes, dish rows are only added,
      dinners and exceptions change only while `p` is in draft, and a failed call changes nothing. */
  lemma BoundCall(pg: Postgres, db: Db, p: int, c: ToolCall)
    requires Valid(db) && p > 0
    ensures Kept(db, Step(pg, db, p, c).0, p)
    ensures !Step(pg, db, p, c).1 ==> Step(pg, db, p, c).0 == db
  {
    FailedCall(pg, db, p, c);
    CallKeeps(pg, db, p, c);
  }

  lemma FailedCall(pg: Postgres, db: Db, bound: int, c: ToolCall)
    ensures !Step(pg, db, bound, c).1 ==> Step(pg, db, bound, c).0 == db
  {
  }

  lemma CallKeeps(pg: Postgres, db: Db, p: int, c: ToolCall)
    requires Valid(db) && p > 0
    ensures Kept(db, Step(pg, db, p, c).0, p)
  {
    Untouched(db, p);
    hide Kept, Valid, Created, Replanned, DinnerAdded, DinnerUpdated, DinnerDeleted, ExceptionAdded, ExceptionUpdated;
    hide ExceptionDeleted, Recorded, ItemListed, ItemsListed, Unlisted;
    match c {
      case Malformed =>
      case OtherTool(_) =>
      case CreateWeek(_, _, _, _, _, _) => CreateWeekKeeps(pg, db, p, c);
      case UpdatePlan(_, _, _, _) => UpdatePlanKeeps(pg, db, p, c);
      case AddDinner(_, _, _, _, _, _, _, _, _) => AddDinnerKeeps(pg, db, p, c);
      case UpdateDinner(_, _, _, _, _, _, _) => UpdateDinnerKeeps(db, p, c);
      case DeleteDinner(d) => DeleteDinnerKeeps(db, p, d);
      case AddException(_, _, _) => AddExceptionKeeps(db, p, c);
      case UpdateException(_, _, _) => UpdateExceptionKeeps(db, p, c);
      case DeleteException(e) => DeleteExceptionKeeps(db, p, e);
      case RecordRetrospective(_, _, _) => RecordKeeps(db, p, c);
      case CartAdd(item, snapshot) => ListedOneKeeps(db, p, item, snapshot);
      case CartAddMany(items, _, snapshots) => ListedKeeps(db, p, items, snapshots);
      case CartRemove(code, _) => UnlistedKeeps(db, p, Some(code));
      case CartClear(_) => UnlistedKeeps(db, p, None);
    }
  }

  /** Outside a bound chat too, a call keeps the tables well formed and changes nothing when it fails. */
  lemma CallInOrder(pg: Postgres, db: Db, bound: int, c: ToolCall)
    requires Valid(db)
    ensures Valid(Step(pg, db, bound, c).0)
    ensures !Step(pg, db, bound, c).1 ==> Step(pg, db, bound, c).0 == db
    ensures bound > 0 ==> Kept(db, Step(pg, db, bound, c).0, bound)
  {
    if bound > 0 {
      BoundCall(pg, db, bound, c);
    } else {
      UnboundCall(pg, db, bound, c);
    }
  }

  lemma UnboundCall(pg: Postgres, db: Db, bound: int, c: ToolCall)
    requires Valid(db) && bound <= 0
    ensures Valid(Step(pg, db, bound, c).0)
    ensures !Step(pg, db, bound, c).1 ==> Step(pg, db, bound, c).0 == db
  {
    FailedCall(pg, db, bound, c);
    if c.CreateWeek? || c.UpdatePlan? {
      UnboundPlanCall(pg, db, bound, c);
    } else if c.AddDinner? || c.UpdateDinner? || c.DeleteDinner? {
      UnboundDinnerCall(pg, db, bound, c);
    } else if c.RecordRetrospective? {
      if Step(pg, db, bound, c).1 { RatedInOrder(db, bound, c); }
    } else if c.CartAddMany? {
      NothingListed(db, bound, c.items, c.snapshots);
    } else {
      UnboundOtherCall(pg, db, bound, c);
    }
  }

  lemma UnboundPlanCall(pg: Postgres, db: Db, bound: int, c: ToolCall)
    requires Valid(db) && bound <= 0 && (c.CreateWeek? || c.UpdatePlan?)
    ensures Valid(Step(pg, db, bound, c).0)
  {
    hide WeekUpdated;
    if c.UpdatePlan? {
      var id := ResolvePlan(bound, if c.week == 0 && c.iso != "" && c.found.Some? then c.found.value else c.week);
      if id.Some? { UpdatedWeeks(pg, db.weeks, id.value, c.update); }
    }
  }

  lemma UnboundDinnerCall(pg: Postgres, db: Db, bound: int, c: ToolCall)
    requires Valid(db) && bound <= 0 && (c.AddDinner? || c.UpdateDinner? || c.DeleteDinner?)
    ensures Valid(Step(pg, db, bound, c).0)
  {
  }

  lemma UnboundOtherCall(pg: Postgres, db: Db, bound: int, c: ToolCall)
    requires Valid(db) && bound <= 0 && !c.CreateWeek? && !c.UpdatePlan? && !c.AddDinner? && !c.UpdateDinner?
    requires !c.DeleteDinner? && !c.RecordRetrospective? && !c.CartAddMany?
    ensures Valid(Step(pg, db, bound, c).0)
  {
  }

  lemma RatedInOrder(db: Db, bound: int, c: ToolCall)
    requires Valid(db) && c.RecordRetrospective? && Recorded(db, bound, c).1
    ensures Recorded(db, bound, c).0.ratings.Keys <= db.dinners.Keys
  {
    RatedKeys(db.ratings, c.ratings);
    forall d | d in Recorded(db, bound, c).0.ratings.Keys ensures d in db.dinners {
      if d !in db.ratings {
        var k :| 0 <= k < |c.ratings| && c.ratings[k].dinner == d;
        assert Ratable(db, ResolvePlan(bound, c.week).value, c.ratings[k]);
      }
    }
  }

  // ---- runs -----------------------------------------------------------------

  function Run(pg: Postgres, db: Db, p: int, cs: seq<ToolCall>): Db
    decreases |cs|
  {
    if cs == [] then db else Run(pg, Step(pg, db, p, cs[0]).0, p, cs[1..])
  }

  lemma RatingsTransitive(a: Db, b: Db, c: Db, p: int)
    requires Valid(a) && Valid(b) && Valid(c)
    requires DinnersOutside(a.dinners, b.dinners, p) && DinnersOutside(b.dinners, c.dinners, p)
    requires RatingsOutside(a, b, p) && RatingsOutside(b, c, p)
    ensures RatingsOutside(a, c, p)
  {
  }

  lemma OutsideTransitive(a: Db, b: Db, c: Db, p: int)
    requires Valid(a) && Valid(b) && Valid(c)
    requires OutsideSame(a, b, p) && OutsideSame(b, c, p)
    ensures OutsideSame(a, c, p)
  {
    RatingsTransitive(a, b, c, p);
  }

  /** Over every run of tool calls in a chat bound to `p`, no existing row of another plan changes
      and none is added to one; dish rows are append-only. */
  lemma {:induction false} RunStaysInPlan(pg: Postgres, db: Db, p: int, cs: seq<ToolCall>)
    requires Valid(db) && p > 0
    ensures var b := Run(pg, db, p, cs);
            Valid(b) && OutsideSame(db, b, p) && DishesKept(db, b)
    decreases |cs|
  {
    if cs != [] {
      var a := Step(pg, db, p, cs[0]).0;
      BoundCall(pg, db, p, cs[0]);
      RunStaysInPlan(pg, a, p, cs[1..]);
      OutsideTransitive(db, a, Run(pg, a, p, cs[1..]), p);
    }
  }

  /** An update_week that reaches plan `p` and sets it to draft: its iso_week, if it goes by one, was
      found, it names no other plan, its dates cast and it clears neither bound. */
  predicate Reopens(pg: Postgres, p: int, c: ToolCall) {
    && c.UpdatePlan? && c.update.status == Some("draft")
    && !(c.week == 0 && c.iso != "" && c.found.None?)
    && ResolvePlan(p, if c.week == 0 && c.iso != "" then c.found.value else c.week).Some?
    && CastsAll(pg, c.update) && Allowed(pg, c.update)
  }

  predicate Locked(db: Db, p: int) {
    p in db.weeks && !Editable(db, p)
  }

  /** One call unlocks a locked plan if and only if it reopens it. */
  lemma UnlocksIff(pg: Postgres, db: Db, p: int, c: ToolCall)
    requires Valid(db) && p > 0 && Locked(db, p)
    ensures p in Step(pg, db, p, c).0.weeks
    ensures Editable(Step(pg, db, p, c).0, p) <==> Reopens(pg, p, c)
  {
    if c.UpdatePlan? || c.CreateWeek? {
      PlanCallUnlocksIff(pg, db, p, c);
    } else {
      WeeksUntouched(pg, db, p, c);
    }
  }

  lemma PlanCallUnlocksIff(pg: Postgres, db: Db, p: int, c: ToolCall)
    requires Valid(db) && p > 0 && Locked(db, p) && (c.UpdatePlan? || c.CreateWeek?)
    ensures p in Step(pg, db, p, c).0.weeks
    ensures Editable(Step(pg, db, p, c).0, p) <==> Reopens(pg, p, c)
  {
    if c.UpdatePlan? { DraftAfterIff(pg, db.weeks, p, c.update); }
    hide WeekUpdated, CastsAll, Allowed, Valid;
  }

  lemma DraftAfterIff(pg: Postgres, weeks: map<int, Week>, p: int, u: WeekUpdate)
    requires p in weeks && weeks[p].status != "draft"
    ensures var r := WeekUpdated(pg, weeks, p, u);
            && (r.Some? ==> p in r.value.0)
            && (r.Some? && r.value.0[p].status == "draft" <==>
                  u.status == Some("draft") && CastsAll(pg, u) && Allowed(pg, u))
  {
  }

  lemma WeeksUntouched(pg: Postgres, db: Db, p: int, c: ToolCall)
    requires !c.UpdatePlan? && !c.CreateWeek?
    ensures Step(pg, db, p, c).0.weeks == db.weeks
  {
    if c.CartAddMany? { ListedWeeks(db, p, c.items, c.snapshots); }
  }

  lemma {:induction false} ListedWeeks(db: Db, p: int, items: seq<Item>, snapshot: string -> string)
    ensures ItemsListed(db, p, items, snapshot).weeks == db.weeks
    decreases |items|
  {
    if items != [] { ListedWeeks(db, p, items[..|items| - 1], snapshot); }
  }

  lemma {:induction false} RunOneMore(pg: Postgres, db: Db, p: int, cs: seq<ToolCall>, k: int)
    requires 0 <= k < |cs|
    ensures Run(pg, db, p, cs[..k + 1]) == Step(pg, Run(pg, db, p, cs[..k]), p, cs[k]).0
    decreases k
  {
    if k == 0 {
      assert cs[..1][1..] == [] && cs[..0] == [];
    } else {
      var rest := cs[1..];
      assert cs[..k + 1][1..] == rest[..k] && cs[..k][1..] == rest[..k - 1];
      RunOneMore(pg, Step(pg, db, p, cs[0]).0, p, rest, k - 1);
    }
  }

  /** A plan stays locked throughout a run if and only if no call of the run reopens it. */
  lemma {:induction false} StaysLockedIff(pg: Postgres, db: Db, p: int, cs: seq<ToolCall>)
    requires Valid(db) && p > 0 && Locked(db, p)
    ensures (forall n | 0 <= n <= |cs| :: Locked(Run(pg, db, p, cs[..n]), p))
            <==> forall k | 0 <= k < |cs| :: !Reopens(pg, p, cs[k])
    decreases |cs|
  {
    assert cs[..0] == [];
    if cs != [] {
      var a, rest := Step(pg, db, p, cs[0]).0, cs[1..];
      BoundCall(pg, db, p, cs[0]);
      UnlocksIff(pg, db, p, cs[0]);
      RunOneMore(pg, db, p, cs, 0);
      assert Run(pg, db, p, cs[..1]) == a;
      if Locked(a, p) {
        StaysLockedIff(pg, a, p, rest);
        forall n | 1 <= n <= |cs| ensures Run(pg, db, p, cs[..n]) == Run(pg, a, p, rest[..n - 1]) {
          assert cs[..n][1..] == rest[..n - 1];
        }
        assert forall n | 0 <= n <= |rest| :: Run(pg, a, p, rest[..n]) == Run(pg, db, p, cs[..n + 1]);
        assert forall k | 0 <= k < |rest| :: rest[k] == cs[k + 1];
      }
    }
  }

  /** A locked plan's menu survives every run with no call that reopens the plan. */
  lemma {:induction false} LockedMenuSurvives(pg: Postgres, db: Db, p: int, cs: seq<ToolCall>)
    requires Valid(db) && p > 0 && Locked(db, p)
    requires forall k | 0 <= k < |cs| :: !Reopens(pg, p, cs[k])
    ensures MenuSame(db, Run(pg, db, p, cs))
    decreases |cs|
  {
    if cs != [] {
      var a := Step(pg, db, p, cs[0]).0;
      BoundCall(pg, db, p, cs[0]);
      UnlocksIff(pg, db, p, cs[0]);
      assert forall k | 0 <= k < |cs[1..]| :: cs[1..][k] == cs[k + 1];
      LockedMenuSurvives(pg, a, p, cs[1..]);
    }
  }

  /** The proviso is needed: update_week has no draft guard, so two calls reopen a locked plan and
      delete one of its dinners. */
  lemma AgentCanReopen(pg: Postgres, db: Db, p: int, d: int)
    requires Valid(db) && p > 0 && p in db.weeks && !Editable(db, p)
    requires d in db.dinners && db.dinners[d].week == p
    ensures var reopen := UpdatePlan(0, "", None, WeekUpdate(None, None, None, None, None, Some("draft"), None));
            d !in Run(pg, db, p, [reopen, DeleteDinner(d)]).dinners
  {
    var reopen := UpdatePlan(0, "", None, WeekUpdate(None, None, None, None, None, Some("draft"), None));
    var cs := [reopen, DeleteDinner(d)];
    var a := Step(pg, db, p, reopen).0;
    assert a.weeks[p].status == "draft" && a.dinners == db.dinners;
    assert cs[1..] == [DeleteDinner(d)] && cs[1..][1..] == [];
    assert DinnerEditable(a, p, d);
    assert Run(pg, a, p, cs[1..]) == Step(pg, a, p, DeleteDinner(d)).0;
  }

  // ---- what one call undoes of another -------------------------------------------

  lemma FreshId<V>(m: map<int, V>, next: int, i: int)
    requires IdsBelow(m, next) && next <= i
    ensures i !in m
  {
    assert forall j | j in m :: j != i;
  }

  lemma InsertThenRemove<V>(m: map<int, V>, i: int, v: V)
    requires i !in m
    ensures m[i := v] - {i} == m
  {
  }

  lemma RemoveAbsent<V>(m: map<int, V>, i: int)
    requires i !in m
    ensures m - {i} == m
  {
  }

  /** Deleting the dinner just added takes everything back but the dish, which is kept for history. */
  lemma AddThenDeleteDinner(pg: Postgres, db: Db, p: int, c: ToolCall)
    requires Valid(db) && p >= 0 && c.AddDinner? && Step(pg, db, p, c).1
    ensures var b := Step(pg, Step(pg, db, p, c).0, p, DeleteDinner(db.next + 1));
            b.1 && b.0.dinners == db.dinners && b.0.ratings == db.ratings && b.0.weeks == db.weeks
            && b.0.exceptions == db.exceptions && b.0.retros == db.retros && b.0.cart == db.cart
            && b.0.dishes.Keys == db.dishes.Keys + {db.next}
  {
    FreshId(db.dinners, db.next, db.next + 1);
    var a := Step(pg, db, p, c).0;
    InsertThenRemove(db.dinners, db.next + 1, a.dinners[db.next + 1]);
    RemoveAbsent(db.ratings, db.next + 1);
  }

  /** The same of an exception. */
  lemma AddThenDeleteException(pg: Postgres, db: Db, p: int, c: ToolCall)
    requires Valid(db) && p >= 0 && c.AddException? && Step(pg, db, p, c).1
    ensures var b := Step(pg, Step(pg, db, p, c).0, p, DeleteException(db.next));
            b.1 && b.0.(next := db.next) == db
  {
    FreshId(db.exceptions, db.next, db.next);
    InsertThenRemove(db.exceptions, db.next, Step(pg, db, p, c).0.exceptions[db.next]);
  }

  /** Replacing a dinner's dish leaves every plan's reading order and every day as they were. */
  lemma UpdateDinnerKeepsOrder(pg: Postgres, db: Db, p: int, c: ToolCall, w: int)
    requires c.UpdateDinner?
    ensures var b := Step(pg, db, p, c).0;
            && Menu(b.dinners, w) == Menu(db.dinners, w)
            && b.dinners.Keys == db.dinners.Keys
            && forall i | i in db.dinners :: b.dinners[i].day == db.dinners[i].day
                 && b.dinners[i].week == db.dinners[i].week
  {
    var b := Step(pg, db, p, c).0;
    assert PlanIds(db.dinners, w) == PlanIds(b.dinners, w);
    MenuKept(db.dinners, b.dinners, w);
  }

  predicate Lists(db: Db, p: int, code: string) {
    exists i | i in db.cart :: db.cart[i].week == p && db.cart[i].code == code
  }

  /** Removing the product just added restores the list exactly when it was not on it before. */
  lemma AddThenRemoveIff(pg: Postgres, db: Db, p: int, item: Item, snapshot: string)
    requires Valid(db) && p > 0 && item.taken
    ensures var b := Step(pg, Step(pg, db, p, CartAdd(item, snapshot)).0, p, CartRemove(item.code, true));
            b.1 && (b.0.cart == db.cart <==> !Lists(db, p, item.code))
  {
    FreshId(db.cart, db.next, db.next);
    var b := Step(pg, Step(pg, db, p, CartAdd(item, snapshot)).0, p, CartRemove(item.code, true)).0;
    if Lists(db, p, item.code) {
      var i :| i in db.cart && db.cart[i].week == p && db.cart[i].code == item.code;
      assert i !in b.cart;
    } else {
      forall i ensures i in b.cart <==> i in db.cart {
        if i in db.cart { assert !(db.cart[i].week == p && db.cart[i].code == item.code); }
      }
    }
  }
}
