/** Cloning, and whole runs of requests against the schedule engine. */
module ScheduleRuns {
  import opened Wrappers
  import opened Calendar
  import opened SqlUpdate
  import opened Dinners
  import opened Schedule
  import opened ScheduleTheorems

  // ---- cloning --------------------------------------------------------------

  function Max(a: int, b: int): int {
    if a >= b then a else b
  }

  /** With the first days taken and the rest free, the vacant days are the rest. */
  lemma {:induction false} VacantAfter(ds: Rows, w: int, s: Day, end: Day, free: Day)
    requires s <= free
    requires forall d | s <= d <= end :: HasRow(ds, w, d) <==> d < free
    ensures Vacant(ds, w, Series(s, end)) == Series(free, end)
    decreases end - s
  {
    SeriesAt(s, end);
    SeriesAt(free, end);
    if s <= end {
      SeriesAt(s + 1, end);
      assert Series(s, end)[0] == s && Series(s, end)[1..] == Series(s + 1, end);
      VacantAfter(ds, w, s + 1, end, Max(free, s + 1));
      if free == s { assert Series(s, end) == [s] + Series(s + 1, end); }
    }
  }

  lemma {:induction false} RedatedAt(ds: Rows, q: seq<int>, target: int, start: Day)
    ensures var s := Redated(ds, q, target, start);
            |s| == |q| && forall k | 0 <= k < |q| :: s[k] == Dinner(target, start + k, SlotOf(ds, q[k]))
  {
    if q != [] { RedatedAt(ds, q[..|q| - 1], target, start); }
  }

  lemma AddedTwice(ds: Rows, es: Rows, fs: Rows, next: int, m: nat, n: nat)
    requires Added(ds, es, next, m) && Added(es, fs, next + m, n)
    ensures Added(ds, fs, next, m + n)
  {
  }

  /** Rows added for a new plan on consecutive days take up exactly those days. */
  lemma TargetDays(ds: Rows, c: Rows, next: int, target: int, start: Day, n: nat)
    requires Added(ds, c, next, n) && forall i | i in ds :: i < next && ds[i].week != target
    requires forall i | next <= i < next + n :: c[i].week == target && c[i].day == start + (i - next)
    ensures forall x | start <= x :: HasRow(c, target, x) <==> x < start + n
  {
    forall x | start <= x < start + n ensures HasRow(c, target, x) {
      var i := next + (x - start);
      assert i in c && c[i].week == target && c[i].day == x;
    }
    forall i | i in c && c[i].week == target ensures c[i].day < start + n { assert i !in ds; }
  }

  /** What the k-th row of a clone carries. */
  ghost function SlotAt(ds: Rows, source: int, k: int): Slot
    requires 0 <= k
  {
    var q := Menu(ds, source);
    if k < |q| then SlotOf(ds, q[k]) else EMPTY_SLOT
  }

  /** Rows added in two goes are the rows of the two lists, one after the other. */
  lemma JoinRows(ds: Rows, c: Rows, r: Rows, next: int, xs: seq<Dinner>, ys: seq<Dinner>)
    requires Added(ds, c, next, |xs|) && forall i | next <= i < next + |xs| :: c[i] == xs[i - next]
    requires Added(c, r, next + |xs|, |ys|) && forall i | next + |xs| <= i < next + |xs| + |ys| ::
              r[i] == ys[i - next - |xs|]
    requires forall i | i in ds :: i < next
    ensures Added(ds, r, next, |xs + ys|)
    ensures forall i | next <= i < next + |xs + ys| :: r[i] == (xs + ys)[i - next]
  {
    AddedTwice(ds, c, r, next, |xs|, |ys|);
    forall i | next <= i < next + |xs + ys| ensures r[i] == (xs + ys)[i - next] {
      if i < next + |xs| { assert i in c && r[i] == c[i]; }
    }
  }

  /** The target's rows in id order: the copies, then one empty row per remaining day. */
  ghost function CloneList(ds: Rows, source: int, target: int, start: Day, d: int): seq<Dinner> {
    Copies(ds, source, target, start) + EmptyRows(target, Series(start + |Menu(ds, source)|, start + d - 1))
  }

  lemma CloneListAt(ds: Rows, source: int, target: int, start: Day, d: int)
    ensures var l, q := CloneList(ds, source, target, start, d), Menu(ds, source);
            && |l| == Max(|q|, d)
            && forall k | 0 <= k < |l| :: l[k] == Dinner(target, start + k, SlotAt(ds, source, k))
  {
    var q := Menu(ds, source);
    RedatedAt(ds, q, target, start);
    SeriesAt(start + |q|, start + d - 1);
    EmptyRowsAt(target, Series(start + |q|, start + d - 1));
  }

  lemma CopyPart(ds: Rows, next: int, source: int, target: int, start: Day)
    requires forall i | i in ds :: i < next && ds[i].week != target
    ensures var c, xs := Copied(ds, next, source, target, start), Copies(ds, source, target, start);
            && |xs| == |Menu(ds, source)|
            && Added(ds, c, next, |xs|) && (forall i | next <= i < next + |xs| :: c[i] == xs[i - next])
            && forall x | start <= x :: HasRow(c, target, x) <==> x < start + |xs|
  {
    var xs := Copies(ds, source, target, start);
    RedatedAt(ds, Menu(ds, source), target, start);
    InsertedRows(ds, next, xs);
    TargetDays(ds, Inserted(ds, next, xs), next, target, start, |xs|);
  }

  /** `rows` are those of `ds` and, from id `next` on, those of `l`. */
  ghost predicate RowsAre(ds: Rows, rows: Rows, next: int, l: seq<Dinner>) {
    Added(ds, rows, next, |l|) && forall i | next <= i < next + |l| :: rows[i] == l[i - next]
  }

  /** The rows of a cloned plan, by id: the copies, then the pads. */
  lemma RowsOfClone(ds: Rows, next: int, source: int, target: int, start: Day, d: int)
    requires forall i | i in ds :: i < next && ds[i].week != target
    ensures var c, l := Copied(ds, next, source, target, start), CloneList(ds, source, target, start, d);
            var xs, ys := Copies(ds, source, target, start), Pads(c, target, start, start + d - 1);
            var rows := Inserted(c, next + |xs|, ys);
            l == xs + ys && |xs| == |Menu(ds, source)| && RowsAre(ds, rows, next, l)
  {
    var c, xs := Copied(ds, next, source, target, start), Copies(ds, source, target, start);
    var ys := Pads(c, target, start, start + d - 1);
    hide Copied, Copies, Inserted, Menu, Series, EmptyRows, Pads;
    CopyPart(ds, next, source, target, start);
    PadPart(c, target, start, d, |xs|);
    InsertedRows(c, next + |xs|, ys);
    JoinRows(ds, c, Inserted(c, next + |xs|, ys), next, xs, ys);
  }

  lemma PadPart(c: Rows, target: int, start: Day, d: int, n: nat)
    requires forall x | start <= x :: HasRow(c, target, x) <==> x < start + n
    ensures Pads(c, target, start, start + d - 1) == EmptyRows(target, Series(start + n, start + d - 1))
  {
    VacantAfter(c, target, start, start + d - 1, start + n);
  }

  lemma FreshTarget(t: Tables)
    requires Valid(t)
    ensures forall i | i in t.dinners :: i < t.nextDinner && t.dinners[i].week != t.nextWeek
  {
  }

  lemma ClonedParts(pg: Postgres, t: Tables, source: int, start: Day)
    requires source in t.weeks
    ensures var u, d := Cloned(pg, t, source, start), t.weeks[source].end - t.weeks[source].start + 1;
            var copied := Copied(t.dinners, t.nextDinner, source, t.nextWeek, start);
            var pads := Pads(copied, t.nextWeek, start, start + d - 1);
            var next := t.nextDinner + |Menu(t.dinners, source)|;
            u.dinners == Inserted(copied, next, pads) && u.nextDinner == next + |pads|
  {
    hide Copied, Inserted, Pads, Menu;
    var w := t.weeks[source];
    assert start + (w.end - w.start) == start + (w.end - w.start + 1) - 1;
  }

  /** The rows of a cloned plan, by id. */
  lemma ClonedRows(pg: Postgres, t: Tables, source: int, start: Day)
    requires Valid(t) && source in t.weeks
    ensures var u, w := Cloned(pg, t, source, start), t.weeks[source];
            var l := CloneList(t.dinners, source, t.nextWeek, start, w.end - w.start + 1);
            u.nextDinner == t.nextDinner + |l| && RowsAre(t.dinners, u.dinners, t.nextDinner, l)
  {
    hide *;
    FreshTarget(t);
    ClonedParts(pg, t, source, start);
    RowsOfClone(t.dinners, t.nextDinner, source, t.nextWeek, start, t.weeks[source].end - t.weeks[source].start + 1);
  }

  /** A clone of a plan of d days and n dinners has max(n, d) rows on consecutive days from the
      new start: the first n carry the source's dinners in reading order, the rest are empty. */
  lemma CloneRows(pg: Postgres, t: Tables, source: int, start: Day)
    requires Valid(t) && source in t.weeks
    ensures var u, w := Cloned(pg, t, source, start), t.weeks[source];
            var m := Menu(u.dinners, t.nextWeek);
            && |m| == Max(|Menu(t.dinners, source)|, w.end - w.start + 1)
            && forall k | 0 <= k < |m| :: m[k] in u.dinners
                 && u.dinners[m[k]] == Dinner(t.nextWeek, start + k, SlotAt(t.dinners, source, k))
  {
    var u, d := Cloned(pg, t, source, start), t.weeks[source].end - t.weeks[source].start + 1;
    var l := CloneList(t.dinners, source, t.nextWeek, start, d);
    FreshTarget(t);
    hide *;
    ClonedRows(pg, t, source, start);
    CloneListAt(t.dinners, source, t.nextWeek, start, d);
    MenuOfAdded(t.dinners, u.dinners, t.nextDinner, l, t.nextWeek, start);
  }

  lemma MenuOfAdded(ds: Rows, es: Rows, next: int, l: seq<Dinner>, target: int, start: Day)
    requires RowsAre(ds, es, next, l) && forall i | i in ds :: i < next && ds[i].week != target
    requires forall k | 0 <= k < |l| :: l[k].week == target && l[k].day == start + k
    ensures var m := Menu(es, target);
            |m| == |l| && forall k | 0 <= k < |m| :: m[k] in es && es[m[k]] == l[k]
  {
    AddedMenu(ds, es, next, |l|, target, start);
    RowsByPlace(es, next, l, Menu(es, target));
  }

  lemma RowsByPlace(rows: Rows, next: int, l: seq<Dinner>, m: seq<int>)
    requires |m| == |l| && forall k | 0 <= k < |m| :: m[k] == next + k
    requires forall i | next <= i < next + |l| :: i in rows && rows[i] == l[i - next]
    ensures forall k | 0 <= k < |m| :: m[k] in rows && rows[m[k]] == l[k]
  {
  }

  lemma AddedMenu(ds: Rows, es: Rows, next: int, n: nat, target: int, start: Day)
    requires Added(ds, es, next, n) && forall i | i in ds :: i < next && ds[i].week != target
    requires forall i | next <= i < next + n :: es[i].week == target && es[i].day == start + (i - next)
    ensures var m := Menu(es, target);
            |m| == n && forall k | 0 <= k < n :: m[k] == next + k
  {
    var m := seq(n, k => next + k);
    forall i | i in es && es[i].week == target ensures i in m {
      assert i !in ds;
      assert m[i - next] == i;
    }
    MenuUnique(es, target, m);
  }

  /** A clone is a fresh draft of the source's duration; nothing else in the tables changes. */
  lemma CloneFrame(pg: Postgres, t: Tables, source: int, start: Day)
    requires Valid(t) && source in t.weeks
    ensures var u, src := Cloned(pg, t, source, start), t.weeks[source];
            && t.nextWeek !in t.weeks && u.weeks.Keys == t.weeks.Keys + {t.nextWeek} && u.nextWeek == t.nextWeek + 1
            && u.weeks[t.nextWeek].status == "draft" && u.weeks[t.nextWeek].start == start
            && u.weeks[t.nextWeek].end - start == src.end - src.start
            && (forall w | w in t.weeks :: u.weeks[w] == t.weeks[w])
            && OtherRowsSame(t.dinners, u.dinners, t.nextWeek)
            && (0 <= start ==> Valid(u))
  {
    var u, w := Cloned(pg, t, source, start), t.weeks[source];
    ClonedRows(pg, t, source, start);
    CloneListAt(t.dinners, source, t.nextWeek, start, w.end - w.start + 1);
    forall i | i in u.dinners ensures i < u.nextDinner && u.dinners[i].week in u.weeks
                                      && (u.dinners[i].week != t.nextWeek ==> i in t.dinners) { }
  }

  lemma CloneTight(pg: Postgres, t: Tables, source: int, start: Day)
    requires Valid(t) && Tight(t, source)
    ensures Tight(Cloned(pg, t, source, start), t.nextWeek)
  {
    var u, src := Cloned(pg, t, source, start), t.weeks[source];
    TightMenu(t.dinners, source, src.start, src.end);
    CloneRows(pg, t, source, start);
    MenuTight(u.dinners, t.nextWeek, start, start + (src.end - src.start));
  }

  // ---- runs -----------------------------------------------------------------

  datatype Request =
    | Patch(id: int, patch: WeekUpdate)
    | Clone(source: int, startDate: string)
    | Create(start: string, end: string, notes: string)

  ghost function Step(pg: Postgres, t: Tables, r: Request): (Tables, Status) {
    match r
    case Patch(id, p) => PatchOutcome(pg, t, id, p)
    case Clone(source, d) => CloneOutcome(pg, t, source, d)
    case Create(s, e, n) => CreateOutcome(pg, t, s, e, n)
  }

  ghost function Run(pg: Postgres, t: Tables, rs: seq<Request>): Tables
    decreases |rs|
  {
    if rs == [] then t else Run(pg, Step(pg, t, rs[0]).0, rs[1..])
  }

  /** The plans known to be tight: those of `s`, and every clone of one of them made on the way. */
  ghost function WithClones(pg: Postgres, t: Tables, rs: seq<Request>, s: set<int>): set<int>
    decreases |rs|
  {
    if rs == [] then s else WithClones(pg, Step(pg, t, rs[0]).0, rs[1..], Grown(pg, t, rs[0], s))
  }

  ghost function Grown(pg: Postgres, t: Tables, r: Request, s: set<int>): set<int> {
    if r.Clone? && r.source in s && Step(pg, t, r).1 == OK then s + {t.nextWeek} else s
  }

  /** A patch that gets through and ruins a plan with one row per day: one that leaves the start alone
      and sends an end misread against a bound, or one that moves the start and sends an end that does
      not come out right. */
  ghost predicate Breaks(pg: Postgres, w: Week, p: WeekUpdate) {
    if !Shifts(pg, w, p) then
      !BadDate(p.start) && !BadDate(p.end) && Accepts(pg, w.start, w.end, p) && MisreadsBound(pg, w.start, w.end, p)
    else
      p.end.Some? && ShiftAccepts(pg, w, p) && !BothDatesKeep(pg, w, p)
  }

  /** No request of the run breaks a plan of `s`, or a clone of one made on the way. */
  ghost predicate NoneBreaks(pg: Postgres, t: Tables, rs: seq<Request>, s: set<int>)
    decreases |rs|
  {
    rs != [] ==>
      var r := rs[0];
      && (r.Patch? && r.id in s && r.id in t.weeks ==> !Breaks(pg, t.weeks[r.id], r.patch))
      && NoneBreaks(pg, Step(pg, t, r).0, rs[1..], Grown(pg, t, r, s))
  }

  /** Over every patch: a plan with one row per day keeps it if and only if the patch does not break it. */
  lemma PatchKeepsTightIff(pg: Postgres, t: Tables, id: int, p: WeekUpdate)
    requires DateStrings(pg) && Valid(t) && Tight(t, id)
    ensures Tight(PatchOutcome(pg, t, id, p).0, id) <==> !Breaks(pg, t.weeks[id], p)
  {
    hide PatchOutcome, Accepts, ShiftAccepts, BothDatesKeep, MisreadsBound;
    if !Shifts(pg, t.weeks[id], p) {
      EndPatchKeepsTightIff(pg, t, id, p);
    } else if p.end.None? {
      StartPatchKeepsTight(pg, t, id, p);
    } else {
      BothDatesTightIff(pg, t, id, p);
    }
  }

  ghost predicate AllTight(t: Tables, s: set<int>) {
    forall w | w in s :: Tight(t, w)
  }

  lemma TightSame(t: Tables, u: Tables, w: int, id: int)
    requires Tight(t, w) && w != id && w in u.weeks && u.weeks[w] == t.weeks[w]
    requires OtherRowsSame(t.dinners, u.dinners, id)
    ensures Tight(u, w)
  {
    var x := t.weeks[w];
    forall d | x.start <= d <= x.end ensures HasRow(u.dinners, w, d) {
      assert HasRow(t.dinners, w, d);
      var i :| i in t.dinners && t.dinners[i].week == w && t.dinners[i].day == d;
      assert i in u.dinners && u.dinners[i] == t.dinners[i];
    }
    forall i | InPlan(u.dinners, w, i) ensures InPlan(t.dinners, w, i) { }
  }

  lemma PatchStep(pg: Postgres, t: Tables, id: int, p: WeekUpdate, s: set<int>)
    requires DateStrings(pg) && Valid(t) && AllTight(t, s)
    ensures var u := PatchOutcome(pg, t, id, p).0;
            && Valid(u)
            && (AllTight(u, s) <==> (id in s && id in t.weeks ==> !Breaks(pg, t.weeks[id], p)))
  {
    PatchFrame(pg, t, id, p);
    var u := PatchOutcome(pg, t, id, p).0;
    hide PatchOutcome, Breaks;
    forall w | w in s && w != id ensures Tight(u, w) { TightSame(t, u, w, id); }
    if id in s { PatchKeepsTightIff(pg, t, id, p); }
  }

  lemma CloneStep(pg: Postgres, t: Tables, source: int, d: string, s: set<int>)
    requires DateStrings(pg) && Valid(t) && AllTight(t, s)
    ensures var (u, status) := CloneOutcome(pg, t, source, d);
            && Valid(u) && AllTight(u, s)
            && (status == OK && source in s ==> Tight(u, t.nextWeek))
  {
    var (u, status) := CloneOutcome(pg, t, source, d);
    hide Cloned, OneRowPerDay;
    if status == OK {
      if d != "" { assert IsDate(pg, d); }
      var start := if d == "" then t.weeks[source].start + 7 else DayOf(pg, d);
      CloneFrame(pg, t, source, start);
      forall w | w in s ensures Tight(u, w) { TightSame(t, u, w, t.nextWeek); }
      if source in s { CloneTight(pg, t, source, start); }
    }
  }

  lemma CreateStep(pg: Postgres, t: Tables, start: string, end: string, notes: string, s: set<int>)
    requires DateStrings(pg) && Valid(t) && AllTight(t, s)
    ensures var u := CreateOutcome(pg, t, start, end, notes).0;
            Valid(u) && AllTight(u, s)
  {
    var u := CreateOutcome(pg, t, start, end, notes).0;
    if MatchesDateRE(start) && pg.castDate(start).Some? { assert IsDate(pg, start); }
    forall w | w in s ensures Tight(u, w) { TightSame(t, u, w, t.nextWeek); }
  }

  /** One request. */
  lemma RequestKeepsIff(pg: Postgres, t: Tables, r: Request, s: set<int>)
    requires DateStrings(pg) && Valid(t) && AllTight(t, s)
    ensures Valid(Step(pg, t, r).0)
    ensures AllTight(Step(pg, t, r).0, Grown(pg, t, r, s)) <==>
            (r.Patch? && r.id in s && r.id in t.weeks ==> !Breaks(pg, t.weeks[r.id], r.patch))
  {
    hide Breaks, Tight;
    match r {
      case Patch(id, p) => PatchStep(pg, t, id, p, s);
      case Clone(source, d) => CloneStep(pg, t, source, d, s);
      case Create(a, b, n) => CreateStep(pg, t, a, b, n, s);
    }
  }

  /** One row per day survives every run of creates, clones and patches, accepted or refused, for each
      plan that had it and for every clone of such a plan, while none of them is broken. */
  lemma {:induction false} RunKeepsOneRowPerDay(pg: Postgres, t: Tables, rs: seq<Request>, s: set<int>)
    requires DateStrings(pg) && Valid(t) && AllTight(t, s) && NoneBreaks(pg, t, rs, s)
    ensures Valid(Run(pg, t, rs)) && AllTight(Run(pg, t, rs), WithClones(pg, t, rs, s))
    ensures s <= WithClones(pg, t, rs, s)
    decreases |rs|
  {
    hide AllTight, Valid, Breaks, Step;
    if rs != [] {
      RequestKeepsIff(pg, t, rs[0], s);
      RunKeepsOneRowPerDay(pg, Step(pg, t, rs[0]).0, rs[1..], Grown(pg, t, rs[0], s));
    }
  }

  ghost predicate StaysTight(pg: Postgres, t: Tables, rs: seq<Request>, s: set<int>) {
    forall n | 0 <= n <= |rs| :: AllTight(Run(pg, t, rs[..n]), WithClones(pg, t, rs[..n], s))
  }

  lemma StaysTightStep(pg: Postgres, t: Tables, rs: seq<Request>, s: set<int>)
    requires rs != [] && AllTight(t, s)
    ensures StaysTight(pg, t, rs, s) <==> StaysTight(pg, Step(pg, t, rs[0]).0, rs[1..], Grown(pg, t, rs[0], s))
  {
    hide AllTight, Step, Grown;
    var u, grown := Step(pg, t, rs[0]).0, Grown(pg, t, rs[0], s);
    forall n | 0 <= n < |rs|
      ensures Run(pg, t, rs[..n + 1]) == Run(pg, u, rs[1..][..n])
      ensures WithClones(pg, t, rs[..n + 1], s) == WithClones(pg, u, rs[1..][..n], grown)
    {
      assert rs[..n + 1][0] == rs[0] && rs[..n + 1][1..] == rs[1..][..n];
    }
    if StaysTight(pg, t, rs, s) {
      forall n | 0 <= n <= |rs[1..]|
        ensures AllTight(Run(pg, u, rs[1..][..n]), WithClones(pg, u, rs[1..][..n], grown))
      {
        assert AllTight(Run(pg, t, rs[..n + 1]), WithClones(pg, t, rs[..n + 1], s));
      }
    }
    if StaysTight(pg, u, rs[1..], grown) {
      forall n | 0 <= n <= |rs| ensures AllTight(Run(pg, t, rs[..n]), WithClones(pg, t, rs[..n], s)) {
        if n > 0 {
          assert AllTight(Run(pg, u, rs[1..][..n - 1]), WithClones(pg, u, rs[1..][..n - 1], grown));
          assert rs[..n - 1 + 1] == rs[..n];
        }
      }
    }
  }

  /** These plans and their clones have one row per day throughout a run if and only if no request of
      it breaks one of them. */
  lemma {:induction false} StaysTightIff(pg: Postgres, t: Tables, rs: seq<Request>, s: set<int>)
    requires DateStrings(pg) && Valid(t) && AllTight(t, s)
    ensures StaysTight(pg, t, rs, s) <==> NoneBreaks(pg, t, rs, s)
    decreases |rs|
  {
    hide AllTight, Valid, Breaks, Step, Grown, StaysTight;
    if rs == [] {
      NothingBreaks(pg, t, rs, s);
    } else {
      var u, grown := Step(pg, t, rs[0]).0, Grown(pg, t, rs[0], s);
      StaysTightStep(pg, t, rs, s);
      RequestKeepsIff(pg, t, rs[0], s);
      if AllTight(u, grown) {
        StaysTightIff(pg, u, rs[1..], grown);
      } else {
        StaysTightNow(pg, u, rs[1..], grown);
      }
    }
  }

  lemma NothingBreaks(pg: Postgres, t: Tables, rs: seq<Request>, s: set<int>)
    requires rs == [] && AllTight(t, s)
    ensures StaysTight(pg, t, rs, s)
  {
    assert rs[..0] == [];
  }

  lemma StaysTightNow(pg: Postgres, t: Tables, rs: seq<Request>, s: set<int>)
    ensures StaysTight(pg, t, rs, s) ==> AllTight(t, s)
  {
    assert Run(pg, t, rs[..0]) == t && WithClones(pg, t, rs[..0], s) == s;
  }

  lemma RequestInOrder(pg: Postgres, t: Tables, r: Request)
    requires DateStrings(pg) && Valid(t)
    ensures Valid(Step(pg, t, r).0)
  {
    match r {
      case Patch(id, p) => PatchFrame(pg, t, id, p);
      case Clone(source, d) => CloneStep(pg, t, source, d, {});
      case Create(a, b, n) => CreateStep(pg, t, a, b, n, {});
    }
  }

  /** One request to its handler. */
  method Serve(db: Database, r: Request) returns (status: Status)
    requires DateStrings(db.pg) && Valid(db.State())
    modifies db
    ensures (db.State(), status) == Step(db.pg, old(db.State()), r) && Valid(db.State())
  {
    RequestInOrder(db.pg, db.State(), r);
    match r {
      case Patch(id, p) => status := db.HandlePatchWeek(id, p);
      case Clone(source, d) => status := db.HandleCloneWeek(source, d);
      case Create(a, b, n) => status := db.HandleCreateWeek(a, b, n);
    }
  }

  /** Any number of requests: the plans of `s`, and the clones made of them, have one row per day. */
  method ServeAll(db: Database, rs: seq<Request>, ghost s: set<int>)
    requires DateStrings(db.pg) && Valid(db.State()) && AllTight(db.State(), s)
    requires NoneBreaks(db.pg, db.State(), rs, s)
    modifies db
    ensures db.State() == Run(db.pg, old(db.State()), rs)
    ensures Valid(db.State()) && AllTight(db.State(), WithClones(db.pg, old(db.State()), rs, s))
  {
    RunKeepsOneRowPerDay(db.pg, db.State(), rs, s);
    for k := 0 to |rs|
      invariant Valid(db.State()) && Run(db.pg, db.State(), rs[k..]) == Run(db.pg, old(db.State()), rs)
    {
      assert rs[k..][0] == rs[k] && rs[k..][1..] == rs[k + 1..];
      var _ := Serve(db, rs[k]);
    }
  }

  /** While the plan ends before year 10000, a patch of one date at most does not break it. */
  lemma FourDigitPlansHold(pg: Postgres, w: Week, p: WeekUpdate)
    requires w.start <= w.end < FirstFiveDigitDay()
    requires p.start.None? || p.end.None?
    ensures !Breaks(pg, w, p)
  {
    hide Accepts, ShiftAccepts, BothDatesKeep;
  }

  lemma EndOnlyMisread(pg: Postgres, t: Tables, id: int, sent: string, e: Day)
    requires id in t.weeks && MatchesDateRE(sent) && pg.castDate(sent) == Some(e)
              && sent != pg.dateText(t.weeks[id].end)
    requires !Before(sent, pg.dateText(t.weeks[id].start)) && !Before(sent, pg.dateText(t.weeks[id].end))
    ensures var (v, status) := PatchOutcome(pg, t, id, EndOnly(sent));
            status == OK && v.weeks == t.weeks[id := t.weeks[id].(end := e)]
  {
  }

  lemma AfterLastFourDigitDay(pg: Postgres, last: Day)
    requires Calendrical(pg) && ToCivil(last) == Civil(9999, 12, 31)
    ensures last + 1 == FirstFiveDigitDay()
    ensures IsDate(pg, pg.dateText(last)) && DayOf(pg, pg.dateText(last)) == last
    ensures !Before(pg.dateText(last), pg.dateText(last + 7)) && pg.dateText(last) != pg.dateText(last + 7)
  {
    AfterLastDay(last, ToCivil(last).year);
    SeventhOfJanuary(ToCivil(last).year + 1);
    StringOrderFailsAtYear10000(last, last + 7);
    ParseText(last);
    BeforeTotal(Text(last), Text(last + 7));
  }

  lemma AfterLastDay(last: Day, y: int)
    requires ToCivil(last) == Civil(y, 12, 31)
    ensures last + 1 == DaysBeforeYear(y + 1)
  {
    TurnOfYear(y);
    CivilUnique(ToCivil(last), ToCivil(DaysBeforeYear(y + 1) - 1));
  }

  lemma SeventhOfJanuary(y: int)
    ensures ToCivil(DaysBeforeYear(y) + 6) == Civil(y, 1, 7)
  {
    CivilUnique(Civil(y, 1, 7), ToCivil(DaysBeforeYear(y) + 6));
  }

  /** Past year 9999 patches of the end alone do break plans. A default clone can store year 10000, and an
      accepted end patch then breaks the clone: take a one-day plan on 9999-12-31, clone it
      (it starts and ends on 10000-01-07) and send the clone the end 9999-12-31. */
  lemma ClonePastYear9999(pg: Postgres, t: Tables, id: int, last: Day)
    requires Calendrical(pg) && Valid(t) && Tight(t, id) && ToCivil(last) == Civil(9999, 12, 31)
    requires t.weeks[id].start == last && t.weeks[id].end == last
    ensures var (u, s1) := CloneOutcome(pg, t, id, "");
            var (v, s2) := PatchOutcome(pg, u, t.nextWeek, EndOnly(pg.dateText(last)));
            && s1 == OK && Tight(u, t.nextWeek) && s2 == OK && !Tight(v, t.nextWeek)
  {
    hide PatchOutcome, CloneOutcome, Before, ToCivil, Calendrical;
    AfterLastFourDigitDay(pg, last);
    DefaultClone(pg, t, id);
    var u := Cloned(pg, t, id, last + 7);
    CloneFrame(pg, t, id, last + 7);
    CloneTight(pg, t, id, last + 7);
    EndOnlyMisread(pg, u, t.nextWeek, pg.dateText(last), last);
    EmptyRangeNotTight(PatchOutcome(pg, u, t.nextWeek, EndOnly(pg.dateText(last))).0, t.nextWeek);
  }

  lemma DefaultClone(pg: Postgres, t: Tables, id: int)
    requires Valid(t) && id in t.weeks
    ensures CloneOutcome(pg, t, id, "") == (Cloned(pg, t, id, t.weeks[id].start + 7), OK)
  {
  }

  lemma EmptyRangeNotTight(t: Tables, id: int)
    requires id in t.weeks && t.weeks[id].end < t.weeks[id].start
    ensures !Tight(t, id)
  {
  }
}
