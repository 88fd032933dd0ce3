/** What each write tool of the agent does, field by field: when it succeeds, which row it makes or
    changes, what that row holds, and that nothing else changes. */
module PlanToolEffects {
  import opened Wrappers
  import opened Calendar
  import opened SqlUpdate
  import opened Dinners
  import opened PlanTools
  import opened PlanToolTheorems

  /** The plan a call is about: in a bound chat that plan, unless another is named; else the one named. */
  predicate Targets(p: int, provided: int, plan: int) {
    if p > 0 then plan == p && (provided <= 0 || provided == p) else plan == provided && provided > 0
  }

  /** There is such a plan to be about. */
  predicate Targeted(p: int, provided: int) {
    if p > 0 then provided <= 0 || provided == p else provided > 0
  }

  predicate IsDraft(db: Db, plan: int) {
    plan in db.weeks && db.weeks[plan].status == "draft"
  }

  /** The dinner is there, in the bound plan if there is one, and its plan is a draft. */
  predicate DinnerOpen(db: Db, p: int, d: int) {
    d in db.dinners && (p == 0 || db.dinners[d].week == p) && IsDraft(db, db.dinners[d].week)
  }

  predicate ExceptionOpen(db: Db, p: int, x: int) {
    x in db.exceptions && (p == 0 || db.exceptions[x].week == p) && IsDraft(db, db.exceptions[x].week)
  }

  predicate Int32(n: int) {
    -0x8000_0000 <= n <= 0x7fff_ffff
  }

  // ---- plans -------------------------------------------------------------------

  /** create_week succeeds exactly when the dates cast, the two optional ones where given, and makes one
      draft with what was asked for. */
  lemma CreatedAsAsked(pg: Postgres, db: Db, p: int, c: ToolCall)
    requires Valid(db) && c.CreateWeek?
    ensures var (b, ok) := Step(pg, db, p, c);
            && (ok <==>
                  && pg.castDate(c.start).Some? && pg.castDate(c.end).Some?
                  && (c.delivery != "" ==> pg.castDate(c.delivery).Some?)
                  && (c.order != "" ==> pg.castDate(c.order).Some?))
            && (ok ==>
                  && db.next !in db.weeks && b.weeks.Keys == db.weeks.Keys + {db.next}
                  && (forall i | i in db.weeks :: b.weeks[i] == db.weeks[i])
                  && b == db.(weeks := b.weeks, next := db.next + 1)
                  && var w := b.weeks[db.next];
                     && w.isoWeek == c.iso && Some(w.start) == pg.castDate(c.start) && Some(w.end) == pg.castDate(c.end)
                     && w.delivery == (if c.delivery == "" then None else pg.castDate(c.delivery))
                     && w.order == (if c.order == "" then None else pg.castDate(c.order))
                     && w.status == "draft" && w.notes == c.notes)
  {
    FreshId(db.weeks, db.next, db.next);
  }

  /** update_week on a plan that is there, is the bound one if there is one, and is named or bound: it
      succeeds exactly when the update gets through, and leaves that plan's fields as sent (WeekAsSent). */
  lemma ReplannedAsAsked(pg: Postgres, db: Db, p: int, c: ToolCall, plan: int)
    requires p >= 0 && c.UpdatePlan? && plan in db.weeks && !(c.week == 0 && c.iso != "" && c.found.None?)
    requires Targets(p, if c.week == 0 && c.iso != "" then c.found.value else c.week, plan)
    ensures var (b, ok) := Step(pg, db, p, c);
            && (ok <==> WeekUpdated(pg, db.weeks, plan, c.update).Some?)
            && b == if ok then db.(weeks := WeekUpdated(pg, db.weeks, plan, c.update).value.0) else db
  {
    hide WeekUpdated;
  }

  /** Any other update_week changes nothing, and only a label that finds no plan is no error. */
  lemma NotReplanned(pg: Postgres, db: Db, p: int, c: ToolCall)
    requires p >= 0 && c.UpdatePlan?
    requires var lookedUp := c.week == 0 && c.iso != "";
             (lookedUp && c.found.None?)
             || !Targeted(p, if lookedUp then c.found.value else c.week)
    ensures Step(pg, db, p, c) == (db, c.week == 0 && c.iso != "" && c.found.None?)
  {
  }

  // ---- dinners -------------------------------------------------------------------

  /** What a dish row and a dinner hold after they were asked for: an empty cuisine as none, no servings
      as four, no sourcing as an empty object; the dinner points at the dish, which was made that day. */
  predicate DishAsAsked(dish: Dish, id: int, row: Dinner, name: string, cuisine: string, recipe: string,
                        servings: int, sourcing: string, notes: string)
  {
    && dish.name == name && dish.cuisine == (if cuisine == "" then None else Some(cuisine)) && dish.recipe == recipe
    && dish.servings == (if servings == 0 then 4 else servings) && row.slot.servings == dish.servings
    && dish.lastMade == row.day && row.slot.dish == Some(id)
    && row.slot.sourcing == (if sourcing == "" then "{}" else sourcing) && row.slot.notes == notes
  }

  /** add_dinner succeeds exactly on a draft that may be written, a day that casts and servings that fit,
      and makes one dish and one dinner of that plan as asked for. */
  lemma AddedAsAsked(pg: Postgres, db: Db, p: int, c: ToolCall, plan: int)
    requires Valid(db) && p >= 0 && c.AddDinner? && Targets(p, c.week, plan)
    ensures var (b, ok) := Step(pg, db, p, c);
            && (ok <==> IsDraft(db, plan) && pg.castDate(c.day).Some? && Int32(c.servings))
            && (ok ==>
                  && db.next !in db.dishes && b.dishes.Keys == db.dishes.Keys + {db.next}
                  && db.next + 1 !in db.dinners && b.dinners.Keys == db.dinners.Keys + {db.next + 1}
                  && (forall i | i in db.dishes :: b.dishes[i] == db.dishes[i])
                  && (forall i | i in db.dinners :: b.dinners[i] == db.dinners[i])
                  && b == db.(dishes := b.dishes, dinners := b.dinners, next := db.next + 2)
                  && var dish, row := b.dishes[db.next], b.dinners[db.next + 1];
                     && DishAsAsked(dish, db.next, row, c.name, c.cuisine, c.recipe, c.servings, c.sourcing, c.notes)
                     && row.week == plan && Some(row.day) == pg.castDate(c.day) && row.slot.sortOrder == 0
                     && dish.tags == c.tags)
  {
    FreshId(db.dinners, db.next, db.next + 1);
    FreshId(db.dishes, db.next, db.next);
  }

  /** A dinner or an exception in no plan that may be written is not added. */
  lemma NothingAdded(pg: Postgres, db: Db, p: int, c: ToolCall)
    requires p >= 0 && (c.AddDinner? || c.AddException? || c.RecordRetrospective?)
    requires !Targeted(p, c.week)
    ensures Step(pg, db, p, c) == (db, false)
  {
  }

  /** update_dinner succeeds exactly on an open dinner, with servings that fit: one new dish as asked for,
      the dinner pointing at it on its own day, in its own plan and place; every other row as it was. */
  lemma UpdatedAsAsked(pg: Postgres, db: Db, p: int, c: ToolCall)
    requires Valid(db) && p >= 0 && c.UpdateDinner?
    ensures var (b, ok) := Step(pg, db, p, c);
            && (ok <==> DinnerOpen(db, p, c.dinner) && Int32(c.servings))
            && (ok ==>
                  && db.next !in db.dishes && b.dishes.Keys == db.dishes.Keys + {db.next}
                  && (forall i | i in db.dishes :: b.dishes[i] == db.dishes[i])
                  && b.dinners.Keys == db.dinners.Keys
                  && (forall i | i in db.dinners && i != c.dinner :: b.dinners[i] == db.dinners[i])
                  && b == db.(dishes := b.dishes, dinners := b.dinners, next := db.next + 1)
                  && var dish, was, row := b.dishes[db.next], db.dinners[c.dinner], b.dinners[c.dinner];
                     && DishAsAsked(dish, db.next, row, c.name, c.cuisine, c.recipe, c.servings, c.sourcing, c.notes)
                     && row.week == was.week && row.day == was.day && row.slot.sortOrder == was.slot.sortOrder
                     && dish.tags == [])
  {
    FreshId(db.dishes, db.next, db.next);
  }

  /** delete_dinner succeeds exactly on an open dinner, and takes it and its rating away. */
  lemma DinnerDeletedAsAsked(pg: Postgres, db: Db, p: int, d: int)
    requires Valid(db) && p >= 0
    ensures var (b, ok) := Step(pg, db, p, DeleteDinner(d));
            && (ok <==> DinnerOpen(db, p, d))
            && (ok ==>
                  && b == db.(dinners := b.dinners, ratings := b.ratings)
                  && b.dinners.Keys == db.dinners.Keys - {d} && b.ratings.Keys == db.ratings.Keys - {d}
                  && (forall i | i in b.dinners :: b.dinners[i] == db.dinners[i])
                  && (forall i | i in b.ratings :: b.ratings[i] == db.ratings[i]))
  {
  }

  // ---- exceptions ------------------------------------------------------------------

  lemma ExceptionAddedAsAsked(pg: Postgres, db: Db, p: int, c: ToolCall, plan: int)
    requires Valid(db) && p >= 0 && c.AddException? && Targets(p, c.week, plan)
    ensures var (b, ok) := Step(pg, db, p, c);
            && (ok <==> IsDraft(db, plan))
            && (ok ==>
                  && db.next !in db.exceptions && b.exceptions.Keys == db.exceptions.Keys + {db.next}
                  && (forall i | i in db.exceptions :: b.exceptions[i] == db.exceptions[i])
                  && b == db.(exceptions := b.exceptions, next := db.next + 1)
                  && var x := b.exceptions[db.next];
                     x.week == plan && x.kind == c.kind && x.description == c.description)
  {
    FreshId(db.exceptions, db.next, db.next);
  }

  /** update_exception succeeds exactly on an open exception with something to set; what was not sent stays. */
  lemma ExceptionUpdatedAsAsked(pg: Postgres, db: Db, p: int, c: ToolCall)
    requires Valid(db) && p >= 0 && c.UpdateException?
    ensures var (b, ok) := Step(pg, db, p, c);
            && (ok <==> ExceptionOpen(db, p, c.exception) && (c.newKind.Some? || c.newDescription.Some?))
            && (ok ==>
                  && b.exceptions.Keys == db.exceptions.Keys && b == db.(exceptions := b.exceptions)
                  && (forall i | i in db.exceptions && i != c.exception :: b.exceptions[i] == db.exceptions[i])
                  && var was, x := db.exceptions[c.exception], b.exceptions[c.exception];
                     && x.week == was.week
                     && x.kind == (if c.newKind.Some? then c.newKind.value else was.kind)
                     && x.description == (if c.newDescription.Some? then c.newDescription.value else was.description))
  {
  }

  lemma ExceptionDeletedAsAsked(pg: Postgres, db: Db, p: int, x: int)
    requires Valid(db) && p >= 0
    ensures var (b, ok) := Step(pg, db, p, DeleteException(x));
            && (ok <==> ExceptionOpen(db, p, x))
            && (ok ==> b == db.(exceptions := b.exceptions) && b.exceptions.Keys == db.exceptions.Keys - {x}
                       && forall i | i in b.exceptions :: b.exceptions[i] == db.exceptions[i])
  {
  }

  // ---- retrospectives ----------------------------------------------------------------

  predicate RatesDinner(rs: seq<RatingInput>, d: int) {
    exists k | 0 <= k < |rs| :: rs[k].dinner == d
  }

  /** No later rating is for the same dinner. */
  predicate IsLastFor(rs: seq<RatingInput>, k: int) {
    0 <= k < |rs| && forall j | k < j < |rs| :: rs[j].dinner != rs[k].dinner
  }

  /** A dinner given no rating keeps the one it had. */
  lemma {:induction false} NotRated(ratings: map<int, Rating>, rs: seq<RatingInput>, d: int)
    requires !RatesDinner(rs, d)
    ensures d in Rated(ratings, rs) <==> d in ratings
    ensures d in ratings ==> Rated(ratings, rs)[d] == ratings[d]
  {
    if rs != [] { NotRated(ratings, rs[..|rs| - 1], d); }
  }

  /** The last rating given for a dinner counts. */
  lemma {:induction false} RatedLast(ratings: map<int, Rating>, rs: seq<RatingInput>, k: int)
    requires IsLastFor(rs, k)
    ensures var d := rs[k].dinner;
            d in Rated(ratings, rs) && Rated(ratings, rs)[d] == Rating(rs[k].rating, rs[k].notes)
    decreases |rs|
  {
    if k < |rs| - 1 { RatedLast(ratings, rs[..|rs| - 1], k); }
  }

  /** record_retrospective succeeds exactly when the plan is there and every rating is a known one for
      a dinner of it, a locked plan included: one new note, and the ratings given. */
  lemma RecordedAsAsked(pg: Postgres, db: Db, p: int, c: ToolCall, plan: int)
    requires Valid(db) && p >= 0 && c.RecordRetrospective? && Targets(p, c.week, plan)
    ensures var (b, ok) := Step(pg, db, p, c);
            var rs := c.ratings;
            && (ok <==>
                  && plan in db.weeks
                  && forall k | 0 <= k < |rs| ::
                       rs[k].dinner in db.dinners && db.dinners[rs[k].dinner].week == plan
                       && rs[k].rating in ["loved", "liked", "meh", "disliked"])
            && (ok ==>
                  && db.next !in db.retros && b.retros.Keys == db.retros.Keys + {db.next}
                  && (forall i | i in db.retros :: b.retros[i] == db.retros[i])
                  && b.retros[db.next].week == plan && b.retros[db.next].notes == c.notes
                  && b == db.(retros := b.retros, ratings := b.ratings, next := db.next + 1)
                  && (forall d: int | !RatesDinner(rs, d) ::
                        (d in b.ratings <==> d in db.ratings) && (d in db.ratings ==> b.ratings[d] == db.ratings[d]))
                  && forall k | IsLastFor(rs, k) ::
                       rs[k].dinner in b.ratings && b.ratings[rs[k].dinner] == Rating(rs[k].rating, rs[k].notes))
  {
    FreshId(db.retros, db.next, db.next);
    forall d: int | !RatesDinner(c.ratings, d) { NotRated(db.ratings, c.ratings, d); }
    forall k | IsLastFor(c.ratings, k) { RatedLast(db.ratings, c.ratings, k); }
    forall k | 0 <= k < |c.ratings|
      ensures KnownRating(c.ratings[k].rating) <==> c.ratings[k].rating in ["loved", "liked", "meh", "disliked"]
    {
    }
  }

  // ---- the cart ----------------------------------------------------------------------

  /** What is kept of a product the shop took: one of it unless more were asked for. */
  predicate ListedAs(row: CartItem, p: int, item: Item, snapshot: string) {
    && row.week == p && row.code == item.code && row.reason == item.reason && row.snapshot == snapshot
    && row.qty == (if item.qty <= 0 then 1 else item.qty)
  }

  /** Kept in a bound chat whose plan is there, if the shop took it and the quantity fits its column. */
  predicate IsListed(db: Db, p: int, item: Item) {
    item.taken && p > 0 && p in db.weeks && item.qty < 10_000_000
  }

  function ListedItems(db: Db, p: int, items: seq<Item>): seq<Item> {
    if items == [] then []
    else ListedItems(db, p, items[..|items| - 1])
         + if IsListed(db, p, items[|items| - 1]) then [items[|items| - 1]] else []
  }

  /** The rows from `next` on are those of `items`, in order, and the others are as they were. */
  ghost predicate Appends(cart: map<int, CartItem>, after: map<int, CartItem>, next: int, p: int, items: seq<Item>,
                          snapshots: string -> string)
  {
    && (forall i :: i in after <==> i in cart || next <= i < next + |items|)
    && (forall i | i in cart :: after[i] == cart[i])
    && forall i | next <= i < next + |items| ::
         ListedAs(after[i], p, items[i - next], snapshots(items[i - next].code))
  }

  /** cart_add succeeds exactly when the shop took the product, and keeps it exactly when it can. */
  lemma CartAddedAsAsked(pg: Postgres, db: Db, p: int, item: Item, snapshot: string)
    requires Valid(db) && p >= 0
    ensures var (b, ok) := Step(pg, db, p, CartAdd(item, snapshot));
            && (ok <==> item.taken) && (!IsListed(db, p, item) ==> b == db)
            && (IsListed(db, p, item) ==>
                  && db.next !in db.cart && b == db.(cart := b.cart, next := db.next + 1)
                  && b.cart.Keys == db.cart.Keys + {db.next} && (forall i | i in db.cart :: b.cart[i] == db.cart[i])
                  && ListedAs(b.cart[db.next], p, item, snapshot))
  {
    FreshId(db.cart, db.next, db.next);
  }

  lemma {:induction false} ItemsAppended(db: Db, p: int, items: seq<Item>, snapshots: string -> string)
    requires Valid(db)
    ensures var b, kept := ItemsListed(db, p, items, snapshots), ListedItems(db, p, items);
            Appends(db.cart, b.cart, db.next, p, kept, snapshots) && b == db.(cart := b.cart, next := db.next + |kept|)
    decreases |items|
  {
    hide *;
    if items == [] {
      NoItems(db, p, items, snapshots);
    } else {
      var init, item := items[..|items| - 1], items[|items| - 1];
      var a, kept := ItemsListed(db, p, init, snapshots), ListedItems(db, p, init);
      ItemsAppended(db, p, init, snapshots);
      LastListed(db, p, items, snapshots);
      if IsListed(db, p, item) {
        CartIds(db);
        OneMoreItem(db.cart, a.cart, db.next, p, kept, item, snapshots);
      }
    }
  }

  lemma NoItems(db: Db, p: int, items: seq<Item>, snapshots: string -> string)
    requires items == []
    ensures ItemsListed(db, p, items, snapshots) == db && ListedItems(db, p, items) == []
    ensures Appends(db.cart, db.cart, db.next, p, [], snapshots)
  {
  }

  lemma CartIds(db: Db)
    requires Valid(db)
    ensures IdsBelow(db.cart, db.next)
  {
  }

  /** What the last item adds to what the others did. */
  lemma LastListed(db: Db, p: int, items: seq<Item>, snapshots: string -> string)
    requires items != []
    requires var a := ItemsListed(db, p, items[..|items| - 1], snapshots);
             a.weeks == db.weeks
    ensures var init, item := items[..|items| - 1], items[|items| - 1];
            var a, kept := ItemsListed(db, p, init, snapshots), ListedItems(db, p, init);
            var row := CartItem(p, item.code, if item.qty <= 0 then 1 else item.qty, item.reason, snapshots(item.code));
            && ListedItems(db, p, items) == (if IsListed(db, p, item) then kept + [item] else kept)
            && ItemsListed(db, p, items, snapshots) ==
               if IsListed(db, p, item) then a.(cart := a.cart[a.next := row], next := a.next + 1) else a
  {
  }

  lemma OneMoreItem(cart: map<int, CartItem>, after: map<int, CartItem>, next: int, p: int, items: seq<Item>,
                    item: Item, snapshots: string -> string)
    requires IdsBelow(cart, next) && Appends(cart, after, next, p, items, snapshots)
    ensures var row := CartItem(p, item.code, if item.qty <= 0 then 1 else item.qty, item.reason, snapshots(item.code));
            Appends(cart, after[next + |items| := row], next, p, items + [item], snapshots)
  {
    forall i | i in cart ensures i < next { }
  }

  /** cart_add_many succeeds exactly when the shop's cart could be read afterwards, and keeps, in order,
      each product that can be kept. */
  lemma CartFilledAsAsked(pg: Postgres, db: Db, p: int, c: ToolCall)
    requires Valid(db) && p >= 0 && c.CartAddMany?
    ensures var (b, ok) := Step(pg, db, p, c);
            var kept := ListedItems(db, p, c.items);
            && (ok <==> c.cartRead) && (!ok ==> b == db)
            && (ok ==> Appends(db.cart, b.cart, db.next, p, kept, c.snapshots)
                       && b == db.(cart := b.cart, next := db.next + |kept|))
  {
    ItemsAppended(db, p, c.items, c.snapshots);
  }

  /** cart_remove and cart_clear succeed exactly when the shop agreed, and take away the rows of the bound
      plan - of that product, or all. */
  lemma CartRemovedAsAsked(pg: Postgres, db: Db, p: int, code: string, taken: bool)
    requires p >= 0
    ensures var (b, ok) := Step(pg, db, p, CartRemove(code, taken));
            && (ok <==> taken) && b == db.(cart := b.cart)
            && (forall i :: i in b.cart <==>
                  i in db.cart && !(taken && p > 0 && db.cart[i].week == p && db.cart[i].code == code))
            && forall i | i in b.cart :: b.cart[i] == db.cart[i]
    ensures var (b, ok) := Step(pg, db, p, CartClear(taken));
            && (ok <==> taken) && b == db.(cart := b.cart)
            && (forall i :: i in b.cart <==> i in db.cart && !(taken && p > 0 && db.cart[i].week == p))
            && forall i | i in b.cart :: b.cart[i] == db.cart[i]
  {
  }
}
