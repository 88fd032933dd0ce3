/** What patching and cloning keep: one dinner row per day, the reading order, the
    dinners themselves, and every other plan. */
module ScheduleTheorems {
  import opened Wrappers
  import opened Calendar
  import opened SqlUpdate
  import opened Dinners
  import opened Schedule

  // ---- the statements, row by row --------------------------------------------

  lemma {:induction false} SeriesAt(a: Day, b: Day)
    ensures |Series(a, b)| == if a > b then 0 else b - a + 1
    ensures forall k | 0 <= k < |Series(a, b)| :: Series(a, b)[k] == a + k
    decreases b - a
  {
    if a <= b { SeriesAt(a + 1, b); }
  }

  lemma {:induction false} EmptyRowsAt(w: int, days: seq<Day>)
    ensures |EmptyRows(w, days)| == |days|
    ensures forall k | 0 <= k < |days| :: EmptyRows(w, days)[k] == Dinner(w, days[k], EMPTY_SLOT)
  {
    if days != [] { EmptyRowsAt(w, days[1..]); }
  }

  /** `es` is `ds` with rows added under the `n` ids from `next`. */
  ghost predicate Added(ds: Rows, es: Rows, next: int, n: nat) {
    (forall i :: i in es <==> i in ds || next <= i < next + n)
    && forall i | i in ds :: es[i] == ds[i]
  }

  lemma {:induction false} InsertedRows(ds: Rows, next: int, rows: seq<Dinner>)
    requires forall i | i in ds :: i < next
    ensures Added(ds, Inserted(ds, next, rows), next, |rows|)
    ensures forall i | next <= i < next + |rows| :: Inserted(ds, next, rows)[i] == rows[i - next]
    decreases |rows|
  {
    if rows != [] {
      var k := |rows| - 1;
      InsertedRows(ds, next, rows[..k]);
      var es := Inserted(ds, next, rows);
      forall i | next <= i < next + |rows| ensures es[i] == rows[i - next] {
        if i < next + k { assert rows[..k][i - next] == rows[i - next]; }
      }
    }
  }

  /** The rows added for the days after `end` up to `e`. */
  lemma NewDays(ds: Rows, next: int, w: int, end: Day, e: Day)
    requires forall i | i in ds :: i < next
    ensures var es, n := Inserted(ds, next, EmptyRows(w, Series(end + 1, e))), if e > end then e - end else 0;
            Added(ds, es, next, n)
            && forall i | next <= i < next + n :: es[i] == Dinner(w, end + 1 + (i - next), EMPTY_SLOT)
  {
    SeriesAt(end + 1, e);
    EmptyRowsAt(w, Series(end + 1, e));
    InsertedRows(ds, next, EmptyRows(w, Series(end + 1, e)));
  }

  // ---- one row per day ------------------------------------------------------

  predicate InPlan(ds: Rows, w: int, i: int) {
    i in ds && ds[i].week == w
  }

  /** Plan `w` has exactly one row on each day start..end and no other row. */
  ghost predicate OneRowPerDay(ds: Rows, w: int, start: Day, end: Day) {
    (forall i | InPlan(ds, w, i) :: start <= ds[i].day <= end)
    && (forall d | start <= d <= end :: HasRow(ds, w, d))
    && forall i, j | InPlan(ds, w, i) && InPlan(ds, w, j) && i != j :: ds[i].day != ds[j].day
  }

  ghost predicate Tight(t: Tables, w: int) {
    w in t.weeks && t.weeks[w].start <= t.weeks[w].end
    && OneRowPerDay(t.dinners, w, t.weeks[w].start, t.weeks[w].end)
  }

  /** In a tight plan the k-th row in reading order sits on the k-th day. */
  lemma TightMenu(ds: Rows, w: int, start: Day, end: Day)
    requires start <= end && OneRowPerDay(ds, w, start, end)
    ensures var q := Menu(ds, w);
            |q| == end - start + 1 && forall k | 0 <= k < |q| :: q[k] in ds && ds[q[k]].day == start + k
  {
    var q := Menu(ds, w);
    MenuListed(ds, w);
    forall a, b | 0 <= a < b < |q| ensures ds[q[a]].day < ds[q[b]].day {
      assert InPlan(ds, w, q[a]) && InPlan(ds, w, q[b]) && Precedes(ds, q[a], q[b]);
    }
    DaysInOrder(ds, w, start, end, q, |q|);
    assert HasRow(ds, w, end);
    var i :| i in ds && ds[i].week == w && ds[i].day == end;
    var a :| 0 <= a < |q| && q[a] == i;
    assert InPlan(ds, w, q[|q| - 1]);
  }

  lemma {:induction false} DaysInOrder(ds: Rows, w: int, start: Day, end: Day, q: seq<int>, n: nat)
    requires OneRowPerDay(ds, w, start, end) && IsMenu(ds, w, q) && n <= |q|
    requires forall a, b | 0 <= a < b < |q| :: ds[q[a]].day < ds[q[b]].day
    ensures forall k | 0 <= k < n :: ds[q[k]].day == start + k
  {
    if n > 0 {
      DaysInOrder(ds, w, start, end, q, n - 1);
      var k := n - 1;
      assert InPlan(ds, w, q[k]);
      assert ds[q[k]].day >= start + k by {
        if k > 0 { assert ds[q[k - 1]].day < ds[q[k]].day; }
      }
      var d := start + k;
      assert HasRow(ds, w, d);
      var i :| i in ds && ds[i].week == w && ds[i].day == d;
      var a :| 0 <= a < |q| && q[a] == i;
      assert a >= k;
      assert ds[q[a]].day <= ds[q[k]].day;
    }
  }

  /** Conversely, rows laid out day by day in reading order are one per day. */
  lemma MenuTight(ds: Rows, w: int, start: Day, end: Day)
    requires var q := Menu(ds, w);
             |q| == end - start + 1 && forall k | 0 <= k < |q| :: q[k] in ds && ds[q[k]].day == start + k
    ensures OneRowPerDay(ds, w, start, end)
  {
    var q := Menu(ds, w);
    MenuListed(ds, w);
    forall i | InPlan(ds, w, i) ensures start <= ds[i].day <= end {
      var a :| 0 <= a < |q| && q[a] == i;
    }
    forall d | start <= d <= end ensures HasRow(ds, w, d) {
      var i := q[d - start];
      assert ds[i].week == w && ds[i].day == d;
    }
    forall i, j | InPlan(ds, w, i) && InPlan(ds, w, j) && i != j ensures ds[i].day != ds[j].day {
      var a :| 0 <= a < |q| && q[a] == i;
      var b :| 0 <= b < |q| && q[b] == j;
    }
  }

  // ---- packing --------------------------------------------------------------

  /** Packing puts the k-th dinner on the k-th day and keeps the reading order. */
  lemma PackedMenu(ds: Rows, w: int, start: Day)
    ensures Menu(Packed(ds, w, start), w) == Menu(ds, w)
    ensures var q := Menu(ds, w);
            forall k | 0 <= k < |q| :: q[k] in ds && Packed(ds, w, start)[q[k]] == ds[q[k]].(day := start + k)
  {
    var q, es := Menu(ds, w), Packed(ds, w, start);
    MenuListed(ds, w);
    forall k | 0 <= k < |q| ensures q[k] in ds && es[q[k]] == ds[q[k]].(day := start + k) {
      RankIsPlace(ds, w, q, k);
    }
    assert PlanIds(ds, w) == PlanIds(es, w);
    forall i, j | i in PlanIds(ds, w) && j in PlanIds(ds, w) && Precedes(ds, i, j) ensures Precedes(es, i, j) {
      var a :| 0 <= a < |q| && q[a] == i;
      var b :| 0 <= b < |q| && q[b] == j;
      assert Precedes(ds, q[a], q[b]);
    }
    MenuKept(ds, es, w);
  }

  lemma RankStays(ds: Rows, w: int, a: Day, i: int)
    requires i in ds && ds[i].week == w
    ensures Rank(Packed(ds, w, a), i) == Rank(ds, i)
  {
    var es, q := Packed(ds, w, a), Menu(ds, w);
    MenuListed(ds, w);
    MenuListed(es, w);
    PackedMenu(ds, w, a);
    var k :| 0 <= k < |q| && q[k] == i;
    RankIsPlace(ds, w, q, k);
    RankIsPlace(es, w, q, k);
  }

  lemma PackedKeys(ds: Rows, w: int, a: Day)
    ensures Packed(ds, w, a).Keys == ds.Keys
  {
  }

  lemma PackedTwiceAt(ds: Rows, w: int, a: Day, b: Day, i: int)
    requires i in ds
    ensures var x, y := Packed(Packed(ds, w, a), w, b), Packed(ds, w, b);
            i in x && i in y && x[i] == y[i]
  {
    if ds[i].week == w { RankStays(ds, w, a, i); }
  }

  /** Packing twice is packing once, to the last start. */
  lemma PackedTwice(ds: Rows, w: int, a: Day, b: Day)
    ensures Packed(Packed(ds, w, a), w, b) == Packed(ds, w, b)
  {
    var x, y := Packed(Packed(ds, w, a), w, b), Packed(ds, w, b);
    forall i | i in ds ensures i in x && i in y && x[i] == y[i] {
      PackedTwiceAt(ds, w, a, b, i);
    }
    PackedKeys(ds, w, a);
    PackedKeys(Packed(ds, w, a), w, b);
    PackedKeys(ds, w, b);
    assert x.Keys == ds.Keys && y.Keys == ds.Keys;
  }

  lemma PackedTight(ds: Rows, w: int, start: Day, end: Day, s: Day)
    requires start <= end && OneRowPerDay(ds, w, start, end)
    ensures OneRowPerDay(Packed(ds, w, s), w, s, s + (end - start))
  {
    TightMenu(ds, w, start, end);
    PackedMenu(ds, w, s);
    MenuTight(Packed(ds, w, s), w, s, s + (end - start));
  }

  // ---- resizing -------------------------------------------------------------

  /** Truncating a one-row-per-day plan at a day within it keeps one row per day. */
  lemma TruncatedTight(ds: Rows, w: int, start: Day, end: Day, e: Day)
    requires OneRowPerDay(ds, w, start, end) && e <= end
    ensures OneRowPerDay(Truncated(ds, w, e), w, start, e)
  {
    var es := Truncated(ds, w, e);
    forall d | start <= d <= e ensures HasRow(es, w, d) {
      assert HasRow(ds, w, d);
      var i :| i in ds && ds[i].week == w && ds[i].day == d;
      assert i in es;
    }
    forall i | InPlan(es, w, i) ensures InPlan(ds, w, i) { }
  }

  /** Extending by one empty row a day keeps one row per day. */
  lemma ExtendedTight(ds: Rows, next: int, w: int, start: Day, end: Day, e: Day)
    requires OneRowPerDay(ds, w, start, end) && start <= end < e
    requires forall i | i in ds :: i < next
    ensures OneRowPerDay(Inserted(ds, next, EmptyRows(w, Series(end + 1, e))), w, start, e)
  {
    var es := Inserted(ds, next, EmptyRows(w, Series(end + 1, e)));
    NewDays(ds, next, w, end, e);
    forall i | InPlan(es, w, i) && i < next ensures InPlan(ds, w, i) { }
    forall d | start <= d <= e ensures HasRow(es, w, d) {
      if d <= end {
        assert HasRow(ds, w, d);
        var i :| i in ds && ds[i].week == w && ds[i].day == d;
        assert i in es && es[i] == ds[i];
      } else {
        var i := next + (d - end - 1);
        assert i in es && es[i].week == w && es[i].day == d;
      }
    }
  }

  // ---- patching: what changes and what does not ------------------------------

  /** Rows of every plan but `id` are the same in both tables. */
  ghost predicate OtherRowsSame(ds: Rows, es: Rows, id: int) {
    (forall i | i in ds && ds[i].week != id :: i in es && es[i] == ds[i])
    && forall i | i in es && es[i].week != id :: i in ds && es[i] == ds[i]
  }

  /** `u` differs from `t` in plan `id` only, and not at all when the request was refused. */
  ghost predicate Framed(t: Tables, u: Tables, status: Status, id: int) {
    && (status != OK ==> u.weeks == t.weeks && u.dinners == t.dinners && u.nextDinner == t.nextDinner)
    && u.nextWeek == t.nextWeek && u.weeks.Keys == t.weeks.Keys
    && (forall w | w in t.weeks && w != id :: u.weeks[w] == t.weeks[w])
    && OtherRowsSame(t.dinners, u.dinners, id)
    && Valid(u)
  }

  lemma CommittedFrame(pg: Postgres, t: Tables, ds: Rows, next: int, id: int, p: WeekUpdate)
    requires Valid(t) && id in t.weeks && t.nextDinner <= next && OtherRowsSame(t.dinners, ds, id)
    requires forall i | i in ds :: i < next
    requires match DateChange(pg, p.start) case Write(d) => 0 <= d case _ => true
    ensures var (u, status) := Committed(pg, t, t.(dinners := ds, nextDinner := next), id, p);
            Framed(t, u, status, id)
  {
    forall i | i in ds ensures ds[i].week in t.weeks { }
  }

  lemma RowsFrame(pg: Postgres, ds: Rows, next: int, id: int, start: Day, end: Day, p: WeekUpdate)
    requires forall i | i in ds :: i < next
    ensures var r := ResizedRows(pg, ds, next, id, start, end, p);
            r.Ok? ==>
              next <= r.value.1 && OtherRowsSame(ds, r.value.0, id) && forall i | i in r.value.0 :: i < r.value.1
  {
    if p.end.Some? && pg.castDate(p.end.value).Some? {
      var e := pg.castDate(p.end.value).value;
      NewDays(ds, next, id, end, e);
      SeriesAt(end + 1, e);
      EmptyRowsAt(id, Series(end + 1, e));
    }
  }

  lemma ResizedFrame(pg: Postgres, t: Tables, ds: Rows, id: int, start: Day, end: Day, p: WeekUpdate)
    requires Valid(t) && id in t.weeks && OtherRowsSame(t.dinners, ds, id)
    requires forall i | i in ds :: i < t.nextDinner
    requires match DateChange(pg, p.start) case Write(d) => 0 <= d case _ => true
    ensures var (u, status) := Resized(pg, t, ds, id, start, end, p);
            Framed(t, u, status, id)
  {
    RowsFrame(pg, ds, t.nextDinner, id, start, end, p);
    match ResizedRows(pg, ds, t.nextDinner, id, start, end, p) {
      case Ok((rows, next)) => CommittedFrame(pg, t, rows, next, id, p);
      case Err(status) => Unchanged(t, status, id);
    }
  }

  lemma PackedFrame(t: Tables, id: int, s: Day)
    requires Valid(t)
    ensures OtherRowsSame(t.dinners, Packed(t.dinners, id, s), id)
    ensures forall i | i in Packed(t.dinners, id, s) :: i < t.nextDinner
  {
  }

  lemma ShiftFrame(pg: Postgres, t: Tables, id: int, s: Day, p: WeekUpdate)
    requires Valid(t) && id in t.weeks
    requires match DateChange(pg, p.start) case Write(d) => 0 <= d case _ => true
    ensures var w := t.weeks[id];
            var end := if p.end.Some? then w.end else w.end + (s - w.start);
            var (u, status) := Resized(pg, t, Packed(t.dinners, id, s), id, s, end, Shifted(pg, w, s, p));
            Framed(t, u, status, id)
  {
    var w := t.weeks[id];
    var end := if p.end.Some? then w.end else w.end + (s - w.start);
    PackedFrame(t, id, s);
    hide Packed, Resized, Framed, WeekUpdated, Rank;
    ResizedFrame(pg, t, Packed(t.dinners, id, s), id, s, end, Shifted(pg, w, s, p));
  }

  lemma SentStart(pg: Postgres, p: WeekUpdate)
    requires DateStrings(pg) && !BadDate(p.start)
    ensures match DateChange(pg, p.start) case Write(d) => 0 <= d case _ => true
  {
    if p.start.Some? && pg.castDate(p.start.value).Some? { assert IsDate(pg, p.start.value); }
  }

  lemma Unchanged(t: Tables, status: Status, id: int)
    requires Valid(t)
    ensures Framed(t, t, status, id)
  {
  }

  /** A refused patch changes nothing; an accepted one touches only its own plan. */
  lemma PatchFrame(pg: Postgres, t: Tables, id: int, p: WeekUpdate)
    requires Valid(t) && DateStrings(pg)
    ensures Framed(t, PatchOutcome(pg, t, id, p).0, PatchOutcome(pg, t, id, p).1, id)
  {
    hide Resized, Framed, Packed, Shifted;
    Unchanged(t, PatchOutcome(pg, t, id, p).1, id);
    if id in t.weeks && !BadDate(p.start) && !BadDate(p.end) {
      var w := t.weeks[id];
      SentStart(pg, p);
      if !Shifts(pg, w, p) {
        ResizedFrame(pg, t, t.dinners, id, w.start, w.end, p);
      } else if pg.castDate(p.start.value).Some? {
        ShiftFrame(pg, t, id, pg.castDate(p.start.value).value, p);
      }
    }
  }

  // ---- patching the end -----------------------------------------------------

  /** A stored date from year 10000 on that a sent (four-digit) date does not sort before,
      although every such date is earlier. */
  predicate Misread(pg: Postgres, stored: Day, sent: string) {
    FirstFiveDigitDay() <= stored && !Before(sent, pg.dateText(stored))
  }

  /** What an accepted patch stores as the bounds of the plan. */
  lemma AcceptedBounds(pg: Postgres, t: Tables, ds: Rows, id: int, start: Day, end: Day, p: WeekUpdate)
    requires id in t.weeks && Resized(pg, t, ds, id, start, end, p).1 == OK
    ensures var u := Resized(pg, t, ds, id, start, end, p).0;
            && ResizedRows(pg, ds, t.nextDinner, id, start, end, p).Ok?
            && u.dinners == ResizedRows(pg, ds, t.nextDinner, id, start, end, p).value.0
            && id in u.weeks && u.weeks[id] == Updated(pg, t.weeks[id], p) && CastsAll(pg, p)
            && !DateChange(pg, p.start).Null? && !DateChange(pg, p.end).Null?
  {
  }

  function NewEnd(pg: Postgres, end: Day, p: WeekUpdate): Day {
    if p.end.Some? && IsDate(pg, p.end.value) then DayOf(pg, p.end.value) else end
  }

  predicate MisreadsBound(pg: Postgres, start: Day, end: Day, p: WeekUpdate) {
    p.end.Some? && (Misread(pg, start, p.end.value) || Misread(pg, end, p.end.value))
  }

  /** The end-resize statements keep one row per day exactly when neither bound is misread. */
  lemma ResizeKeepsIff(pg: Postgres, ds: Rows, next: int, id: int, start: Day, end: Day, p: WeekUpdate)
    requires DateStrings(pg) && 0 <= start <= end && OneRowPerDay(ds, id, start, end) && !BadDate(p.end)
    requires forall i | i in ds :: i < next
    requires ResizedRows(pg, ds, next, id, start, end, p).Ok?
    ensures var e := NewEnd(pg, end, p);
            (start <= e && OneRowPerDay(ResizedRows(pg, ds, next, id, start, end, p).value.0, id, start, e))
            <==> !MisreadsBound(pg, start, end, p)
  {
    if p.end.Some? {
      var sent := p.end.value;
      if sent == pg.dateText(end) {
        assert IsDate(pg, sent);
      } else {
        assert IsDate(pg, sent);
        if Before(sent, pg.dateText(end)) {
          EndTruncates(pg, ds, id, start, end, sent);
        } else {
          EndExtends(pg, ds, next, id, start, end, sent);
        }
      }
    }
  }

  /** What an update has to be to get through, for a plan held to start at `start` and end at `end`:
      it sets something, its dates cast, no required column is cleared, its status is known, and a new
      end does not compare before the start. */
  predicate Accepts(pg: Postgres, start: Day, end: Day, p: WeekUpdate) {
    && !NothingSet(p) && CastsAll(pg, p) && Allowed(pg, p)
    && (p.end.Some? && p.end.value != pg.dateText(end) ==> !Before(p.end.value, pg.dateText(start)))
  }

  lemma AcceptedIff(pg: Postgres, t: Tables, ds: Rows, id: int, start: Day, end: Day, p: WeekUpdate)
    requires id in t.weeks && !BadDate(p.end)
    ensures Resized(pg, t, ds, id, start, end, p).1 == OK <==> Accepts(pg, start, end, p)
  {
    hide Truncated, Inserted, EmptyRows, Series, Updated;
    if p.end.Some? { assert p.end.value != ""; }
  }

  /** A patch that leaves the start alone is accepted exactly when its dates look like dates and the
      update gets through. */
  lemma PatchAcceptedIff(pg: Postgres, t: Tables, id: int, p: WeekUpdate)
    requires id in t.weeks && !Shifts(pg, t.weeks[id], p)
    ensures var w := t.weeks[id];
            PatchOutcome(pg, t, id, p).1 == OK
            <==> !BadDate(p.start) && !BadDate(p.end) && Accepts(pg, w.start, w.end, p)
  {
    hide Resized, Accepts;
    if !BadDate(p.start) && !BadDate(p.end) {
      AcceptedIff(pg, t, t.dinners, id, t.weeks[id].start, t.weeks[id].end, p);
    }
  }

  /** A patch that leaves the start alone keeps one row per day, unless it gets through with an end
      misread against one of the plan's bounds - and then it never does. */
  lemma EndPatchKeepsTightIff(pg: Postgres, t: Tables, id: int, p: WeekUpdate)
    requires DateStrings(pg) && Valid(t) && Tight(t, id) && !Shifts(pg, t.weeks[id], p)
    ensures var w := t.weeks[id];
            Tight(PatchOutcome(pg, t, id, p).0, id) <==>
              !(!BadDate(p.start) && !BadDate(p.end)
                && Accepts(pg, w.start, w.end, p) && MisreadsBound(pg, w.start, w.end, p))
  {
    PatchAcceptedIff(pg, t, id, p);
    hide Accepts;
    AcceptedPatchTightIff(pg, t, id, p);
  }

  lemma AcceptedPatchTightIff(pg: Postgres, t: Tables, id: int, p: WeekUpdate)
    requires DateStrings(pg) && Valid(t) && Tight(t, id) && !Shifts(pg, t.weeks[id], p)
    ensures var (u, status) := PatchOutcome(pg, t, id, p);
            Tight(u, id) <==> !(status == OK && MisreadsBound(pg, t.weeks[id].start, t.weeks[id].end, p))
  {
    var (u, status) := PatchOutcome(pg, t, id, p);
    var w := t.weeks[id];
    if status == OK {
      AcceptedBounds(pg, t, t.dinners, id, w.start, w.end, p);
      StoredBounds(pg, w, p, w.start);
      ResizeKeepsIff(pg, t.dinners, t.nextDinner, id, w.start, w.end, p);
    }
  }

  /** The bounds stored by an accepted patch whose start is `s`. */
  lemma StoredBounds(pg: Postgres, w: Week, p: WeekUpdate, s: Day)
    requires RoundTrips(pg) && CastsAll(pg, p) && !BadDate(p.end)
    requires !DateChange(pg, p.end).Null?
    requires if p.start.None? then s == w.start else p.start.value != "" && pg.castDate(p.start.value) == Some(s)
    ensures Updated(pg, w, p).start == s && Updated(pg, w, p).end == NewEnd(pg, w.end, p)
  {
  }

  lemma EndTruncates(pg: Postgres, ds: Rows, id: int, start: Day, end: Day, sent: string)
    requires DateStrings(pg) && 0 <= start <= end && OneRowPerDay(ds, id, start, end) && IsDate(pg, sent)
    requires !Before(sent, pg.dateText(start)) && Before(sent, pg.dateText(end))
    ensures var e := DayOf(pg, sent);
            (start <= e && OneRowPerDay(Truncated(ds, id, e), id, start, e))
            <==> !(Misread(pg, start, sent) || Misread(pg, end, sent))
  {
    var e := DayOf(pg, sent);
    if start < FirstFiveDigitDay() {
      assert e < end;
      TruncatedTight(ds, id, start, end, e);
    }
  }

  lemma EndExtends(pg: Postgres, ds: Rows, next: int, id: int, start: Day, end: Day, sent: string)
    requires DateStrings(pg) && 0 <= start <= end && OneRowPerDay(ds, id, start, end) && IsDate(pg, sent)
    requires !Before(sent, pg.dateText(start)) && !Before(sent, pg.dateText(end)) && sent != pg.dateText(end)
    requires forall i | i in ds :: i < next
    ensures var e := DayOf(pg, sent);
            (start <= e && OneRowPerDay(Inserted(ds, next, EmptyRows(id, Series(end + 1, e))), id, start, e))
            <==> !(Misread(pg, start, sent) || Misread(pg, end, sent))
  {
    var e := DayOf(pg, sent);
    if end < FirstFiveDigitDay() {
      LaterEnd(pg, end, sent);
      ExtendedTight(ds, next, id, start, end, e);
    } else {
      StaleRow(ds, next, id, start, end, e);
    }
  }

  lemma LaterEnd(pg: Postgres, end: Day, sent: string)
    requires DateStrings(pg) && IsDate(pg, sent) && 0 <= end < FirstFiveDigitDay()
    requires !Before(sent, pg.dateText(end)) && sent != pg.dateText(end)
    ensures end < DayOf(pg, sent)
  {
    assert pg.dateText(DayOf(pg, sent)) == sent;
  }

  /** An end moved back without deleting leaves the row of the old last day outside the plan. */
  lemma StaleRow(ds: Rows, next: int, w: int, start: Day, end: Day, e: Day)
    requires OneRowPerDay(ds, w, start, end) && start <= end && e < end
    requires forall i | i in ds :: i < next
    ensures !OneRowPerDay(Inserted(ds, next, EmptyRows(w, Series(end + 1, e))), w, start, e)
  {
    NewDays(ds, next, w, end, e);
    var es := Inserted(ds, next, EmptyRows(w, Series(end + 1, e)));
    assert HasRow(ds, w, end);
    var i :| i in ds && ds[i].week == w && ds[i].day == end;
    assert InPlan(es, w, i) && es[i].day > e;
  }

  // ---- moving the start -----------------------------------------------------

  function StartOnly(a: string): WeekUpdate {
    WeekUpdate(None, Some(a), None, None, None, None, None)
  }

  function EndOnly(e: string): WeekUpdate {
    WeekUpdate(None, None, Some(e), None, None, None, None)
  }

  /** The plan row once its start moved to `s`: same duration, label recomputed unless sent. */
  lemma MovedStart(pg: Postgres, t: Tables, id: int, p: WeekUpdate)
    requires RoundTrips(pg) && id in t.weeks && Shifts(pg, t.weeks[id], p) && p.end.None?
    requires PatchOutcome(pg, t, id, p).1 == OK
    ensures IsDate(pg, p.start.value)
    ensures var u := PatchOutcome(pg, t, id, p).0;
            var w, s := t.weeks[id], DayOf(pg, p.start.value);
            && u.dinners == Packed(t.dinners, id, s)
            && id in u.weeks && u.weeks[id].start == s && u.weeks[id].end == w.end + (s - w.start)
  {
    var w := t.weeks[id];
    assert IsDate(pg, p.start.value);
    var s := DayOf(pg, p.start.value);
    var q := Shifted(pg, w, s, p);
    var end := w.end + (s - w.start);
    assert pg.castDate(pg.dateText(end)) == Some(end);
    AcceptedBounds(pg, t, Packed(t.dinners, id, s), id, s, end, q);
  }

  /** Moving the start loses or alters no dinner except its day, and keeps the reading order
      and the duration: the k-th dinner lands on the k-th day of the moved plan. */
  lemma StartPatchKeepsDinners(pg: Postgres, t: Tables, id: int, p: WeekUpdate)
    requires RoundTrips(pg) && id in t.weeks && Shifts(pg, t.weeks[id], p) && p.end.None?
    requires PatchOutcome(pg, t, id, p).1 == OK
    ensures var u := PatchOutcome(pg, t, id, p).0;
            var q := Menu(t.dinners, id);
            && id in u.weeks && Menu(u.dinners, id) == q && u.dinners.Keys == t.dinners.Keys
            && u.weeks[id].end - u.weeks[id].start == t.weeks[id].end - t.weeks[id].start
            && forall k | 0 <= k < |q| :: q[k] in t.dinners
                 && u.dinners[q[k]] == t.dinners[q[k]].(day := u.weeks[id].start + k)
  {
    MovedStart(pg, t, id, p);
    PackedMenu(t.dinners, id, DayOf(pg, p.start.value));
  }

  lemma StartPatchKeepsTight(pg: Postgres, t: Tables, id: int, p: WeekUpdate)
    requires DateStrings(pg) && Tight(t, id) && Shifts(pg, t.weeks[id], p) && p.end.None?
    ensures Tight(PatchOutcome(pg, t, id, p).0, id)
  {
    var w := t.weeks[id];
    if PatchOutcome(pg, t, id, p).1 == OK {
      MovedStart(pg, t, id, p);
      PackedTight(t.dinners, id, w.start, w.end, DayOf(pg, p.start.value));
    }
  }

  /** A patch of the start alone is accepted for every castable date, and this is all it does. */
  lemma StartOnlyOutcome(pg: Postgres, t: Tables, id: int, a: string)
    requires RoundTrips(pg) && id in t.weeks && IsDate(pg, a)
    ensures var (u, status) := PatchOutcome(pg, t, id, StartOnly(a));
            var w, s := t.weeks[id], DayOf(pg, a);
            && status == OK && u.nextWeek == t.nextWeek && u.nextDinner == t.nextDinner
            && if a == pg.dateText(w.start) then u.weeks == t.weeks && u.dinners == t.dinners
               else u.weeks == t.weeks[id := w.(isoWeek := pg.isoLabel(s), start := s, end := w.end + (s - w.start))]
                    && u.dinners == Packed(t.dinners, id, s)
  {
    var w, s := t.weeks[id], DayOf(pg, a);
    assert a != "";
    if a == pg.dateText(w.start) {
      assert t.weeks[id := w] == t.weeks;
    } else {
      var q := Shifted(pg, w, s, StartOnly(a));
      assert WeekUpdated(pg, t.weeks, id, q) ==
             Some((t.weeks[id := w.(isoWeek := pg.isoLabel(s), start := s, end := w.end + (s - w.start))], 1));
    }
  }

  /** Moving the start to `a` and then to `b` is moving it straight to `b`, unless `b` is where the
      plan already starts: then the direct patch is a no-op, and the two agree only if the first
      move was one too, or the plan was packed and labelled by its start already. */
  lemma StartMovesCompose(pg: Postgres, t: Tables, id: int, a: string, b: string)
    requires RoundTrips(pg) && id in t.weeks && IsDate(pg, a) && IsDate(pg, b)
    ensures var via := PatchOutcome(pg, PatchOutcome(pg, t, id, StartOnly(a)).0, id, StartOnly(b)).0;
            var direct := PatchOutcome(pg, t, id, StartOnly(b)).0;
            var w := t.weeks[id];
            (via.weeks == direct.weeks && via.dinners == direct.dinners)
            <==> (b != pg.dateText(w.start) || a == b
                  || (Packed(t.dinners, id, w.start) == t.dinners && w.isoWeek == pg.isoLabel(w.start)))
    ensures var via := PatchOutcome(pg, PatchOutcome(pg, t, id, StartOnly(a)).0, id, StartOnly(b)).0;
            var direct := PatchOutcome(pg, t, id, StartOnly(b)).0;
            via.nextWeek == direct.nextWeek && via.nextDinner == direct.nextDinner
  {
    var w, x, y := t.weeks[id], DayOf(pg, a), DayOf(pg, b);
    var t1 := PatchOutcome(pg, t, id, StartOnly(a)).0;
    StartOnlyOutcome(pg, t, id, a);
    StartOnlyOutcome(pg, t, id, b);
    StartOnlyOutcome(pg, t1, id, b);
    PackedTwice(t.dinners, id, x, y);
    assert pg.dateText(x) == a && pg.dateText(y) == b;
    if a != b && a != pg.dateText(w.start) {
      MoveTwiceWeeks(pg, t.weeks, id, x, y);
      if b == pg.dateText(w.start) {
        assert y == w.start;
        var back := w.(isoWeek := pg.isoLabel(y), start := y, end := w.end);
        assert t.weeks[id := back] == t.weeks <==> back == w by { assert t.weeks[id := back][id] == back; }
      }
    } else if a == b {
      assert t1.weeks[id].start == y || a == pg.dateText(w.start);
    }
  }

  lemma MoveTwiceWeeks(pg: Postgres, weeks: map<int, Week>, id: int, x: Day, y: Day)
    requires id in weeks
    ensures var w := weeks[id];
            var once := weeks[id := w.(isoWeek := pg.isoLabel(x), start := x, end := w.end + (x - w.start))];
            var v := once[id];
            once[id := v.(isoWeek := pg.isoLabel(y), start := y, end := v.end + (y - v.start))]
            == weeks[id := w.(isoWeek := pg.isoLabel(y), start := y, end := w.end + (y - w.start))]
  {
  }

  // ---- extending and shrinking back -----------------------------------------

  /** The string tests an end patch makes, decided by the calendar. */
  ghost predicate ReadsEnd(pg: Postgres, w: Week, e: string, d: Day) {
    && MatchesDateRE(e) && pg.castDate(e) == Some(d) && e != pg.dateText(w.end)
    && !Before(e, pg.dateText(w.start)) && (Before(e, pg.dateText(w.end)) <==> d < w.end)
  }

  lemma EndIsRead(pg: Postgres, w: Week, e: string)
    requires DateStrings(pg) && IsDate(pg, e)
    requires 0 <= w.start <= DayOf(pg, e) && w.start <= w.end < FirstFiveDigitDay() && DayOf(pg, e) != w.end
    ensures ReadsEnd(pg, w, e, DayOf(pg, e))
  {
    assert pg.castDate(pg.dateText(w.end)) == Some(w.end);
    assert Before(e, pg.dateText(w.start)) <==> DayOf(pg, e) < w.start;
  }

  lemma EndOnlyOutcome(pg: Postgres, t: Tables, id: int, e: string, d: Day)
    requires id in t.weeks && ReadsEnd(pg, t.weeks[id], e, d)
    ensures var (u, status) := PatchOutcome(pg, t, id, EndOnly(e));
            var w := t.weeks[id];
            && status == OK && u.weeks == t.weeks[id := w.(end := d)]
            && u.dinners == if d < w.end then Truncated(t.dinners, id, d)
                            else Inserted(t.dinners, t.nextDinner, EmptyRows(id, Series(w.end + 1, d)))
  {
    var w := t.weeks[id];
    assert WeekUpdated(pg, t.weeks, id, EndOnly(e)) == Some((t.weeks[id := w.(end := d)], 1));
  }

  ghost predicate NoRowsPastEnd(ds: Rows, w: int, end: Day) {
    forall i | InPlan(ds, w, i) :: ds[i].day <= end
  }

  /** Extending the end and shrinking it back restores the plan exactly when it had no rows past its end. */
  lemma ExtendThenShrink(pg: Postgres, t: Tables, id: int, e: string)
    requires DateStrings(pg) && Valid(t) && id in t.weeks && IsDate(pg, e)
    requires var w := t.weeks[id]; w.start <= w.end < FirstFiveDigitDay() && w.end < DayOf(pg, e)
    ensures var (t1, s1) := PatchOutcome(pg, t, id, EndOnly(e));
            var (t2, s2) := PatchOutcome(pg, t1, id, EndOnly(pg.dateText(t.weeks[id].end)));
            && s1 == OK && s2 == OK && t2.weeks == t.weeks
            && (t2.dinners == t.dinners <==> NoRowsPastEnd(t.dinners, id, t.weeks[id].end))
  {
    var w, d := t.weeks[id], DayOf(pg, e);
    var back := pg.dateText(w.end);
    EndIsRead(pg, w, e);
    EndIsRead(pg, w.(end := d), back) by { assert IsDate(pg, back) && DayOf(pg, back) == w.end; }
    BackAndForth(pg, t, id, e, d, back);
  }

  lemma BackAndForth(pg: Postgres, t: Tables, id: int, e: string, d: Day, back: string)
    requires id in t.weeks && (forall i | i in t.dinners :: i < t.nextDinner) && t.weeks[id].end < d
    requires ReadsEnd(pg, t.weeks[id], e, d) && ReadsEnd(pg, t.weeks[id].(end := d), back, t.weeks[id].end)
    ensures var (t1, s1) := PatchOutcome(pg, t, id, EndOnly(e));
            var (t2, s2) := PatchOutcome(pg, t1, id, EndOnly(back));
            && s1 == OK && s2 == OK && t2.weeks == t.weeks
            && (t2.dinners == t.dinners <==> NoRowsPastEnd(t.dinners, id, t.weeks[id].end))
  {
    var w := t.weeks[id];
    var t1 := PatchOutcome(pg, t, id, EndOnly(e)).0;
    EndOnlyOutcome(pg, t, id, e, d);
    EndOnlyOutcome(pg, t1, id, back, w.end);
    assert t.weeks[id := w.(end := d)][id := w] == t.weeks;
    InsertedThenTruncated(t.dinners, t.nextDinner, id, w.end, d);
    TruncatedSame(t.dinners, id, w.end);
  }

  lemma InsertedThenTruncated(ds: Rows, next: int, w: int, end: Day, d: Day)
    requires forall i | i in ds :: i < next
    requires end < d
    ensures Truncated(Inserted(ds, next, EmptyRows(w, Series(end + 1, d))), w, end) == Truncated(ds, w, end)
  {
    var es := Inserted(ds, next, EmptyRows(w, Series(end + 1, d)));
    NewDays(ds, next, w, end, d);
    var x, y := Truncated(es, w, end), Truncated(ds, w, end);
    forall i ensures i in x <==> i in y { }
    assert x.Keys == y.Keys;
  }

  lemma TruncatedSame(ds: Rows, w: int, end: Day)
    ensures Truncated(ds, w, end) == ds <==> NoRowsPastEnd(ds, w, end)
  {
    var x := Truncated(ds, w, end);
    if NoRowsPastEnd(ds, w, end) {
      forall i | i in ds ensures i in x { assert InPlan(ds, w, i) ==> ds[i].day <= end; }
      assert x.Keys == ds.Keys;
    }
  }

  // ---- sending both dates ---------------------------------------------------

  /** The string tests a both-dates patch makes, decided by the calendar. */
  ghost predicate ReadsBoth(pg: Postgres, w: Week, p: WeekUpdate, s: Day, e: Day) {
    && p.start.Some? && MatchesDateRE(p.start.value) && pg.castDate(p.start.value) == Some(s)
    && p.end.Some? && MatchesDateRE(p.end.value) && pg.castDate(p.end.value) == Some(e)
    && (p.end.value == pg.dateText(w.end) <==> e == w.end) && s != w.start
    && (Before(p.end.value, pg.dateText(s)) <==> e < s)
    && (Before(p.end.value, pg.dateText(w.end)) <==> e < w.end && !Misread(pg, w.end, p.end.value))
    && (Misread(pg, w.end, p.end.value) ==> e < w.end)
  }

  lemma BothAreRead(pg: Postgres, w: Week, p: WeekUpdate)
    requires DateStrings(pg) && p.start.Some? && p.end.Some? && IsDate(pg, p.start.value) && IsDate(pg, p.end.value)
    requires 0 <= w.start <= w.end && p.start.value != pg.dateText(w.start)
    ensures ReadsBoth(pg, w, p, DayOf(pg, p.start.value), DayOf(pg, p.end.value))
  {
    assert pg.castDate(pg.dateText(w.end)) == Some(w.end);
    assert pg.dateText(DayOf(pg, p.end.value)) == p.end.value;
    assert pg.dateText(DayOf(pg, p.start.value)) == p.start.value;
  }

  lemma BothDatesStored(pg: Postgres, t: Tables, id: int, p: WeekUpdate, s: Day, e: Day)
    requires id in t.weeks && ReadsBoth(pg, t.weeks[id], p, s, e) && Shifts(pg, t.weeks[id], p)
    requires PatchOutcome(pg, t, id, p).1 == OK
    ensures var w, u := t.weeks[id], PatchOutcome(pg, t, id, p).0;
            var ds := Packed(t.dinners, id, s);
            && id in u.weeks && u.weeks[id].start == s && u.weeks[id].end == e
            && (s <= e || e == w.end)
            && u.dinners == if e == w.end || Misread(pg, w.end, p.end.value) then ds
                            else if e < w.end then Truncated(ds, id, e)
                            else Inserted(ds, t.nextDinner, EmptyRows(id, Series(w.end + 1, e)))
  {
    var w := t.weeks[id];
    assert e < w.end ==> Series(w.end + 1, e) == [];
    AcceptedBounds(pg, t, Packed(t.dinners, id, s), id, s, w.end, Shifted(pg, w, s, p));
  }

  /** What a patch that moves the start has to be to be accepted: its dates look like dates, the start
      casts, and the update filled in for the shift gets through against the bounds then held. */
  predicate ShiftAccepts(pg: Postgres, w: Week, p: WeekUpdate)
    requires p.start.Some?
  {
    && !BadDate(p.start) && !BadDate(p.end) && pg.castDate(p.start.value).Some?
    && var s := pg.castDate(p.start.value).value;
       Accepts(pg, s, if p.end.Some? then w.end else w.end + (s - w.start), Shifted(pg, w, s, p))
  }

  lemma ShiftAcceptedIff(pg: Postgres, t: Tables, id: int, p: WeekUpdate)
    requires RoundTrips(pg) && id in t.weeks && Shifts(pg, t.weeks[id], p)
    ensures PatchOutcome(pg, t, id, p).1 == OK <==> ShiftAccepts(pg, t.weeks[id], p)
  {
    hide Accepts, Packed;
    var w := t.weeks[id];
    if !BadDate(p.start) && !BadDate(p.end) && pg.castDate(p.start.value).Some? {
      var s := pg.castDate(p.start.value).value;
      var end := if p.end.Some? then w.end else w.end + (s - w.start);
      if p.end.None? {
        AcceptedAtEnd(pg, t, Packed(t.dinners, id, s), id, s, end, Shifted(pg, w, s, p));
      } else {
        AcceptedIff(pg, t, Packed(t.dinners, id, s), id, s, end, Shifted(pg, w, s, p));
      }
    }
  }

  /** The same as AcceptedIff for an end that is the one held already, of whatever year. */
  lemma AcceptedAtEnd(pg: Postgres, t: Tables, ds: Rows, id: int, start: Day, end: Day, p: WeekUpdate)
    requires RoundTrips(pg) && id in t.weeks && p.end == Some(pg.dateText(end))
    ensures Resized(pg, t, ds, id, start, end, p).1 == OK <==> Accepts(pg, start, end, p)
  {
    hide Truncated, Inserted, EmptyRows, Series, Updated;
  }

  /** The sent end leaves a plan moved to the sent start with one row per day: it is before the old end,
      no earlier than the new start and no later than the moved plan's last dinner - or on that very
      day, when the old end is one the string comparison misreads, so that nothing is truncated. */
  predicate BothDatesKeep(pg: Postgres, w: Week, p: WeekUpdate) {
    && p.start.Some? && p.end.Some? && IsDate(pg, p.start.value) && IsDate(pg, p.end.value)
    && var s, e := DayOf(pg, p.start.value), DayOf(pg, p.end.value);
       var last := s + (w.end - w.start);
       s <= e < w.end && if Misread(pg, w.end, p.end.value) then e == last else e <= last
  }

  /** A patch that moves the start and also sends an end judges that end against the old end. It keeps
      one row per day unless it is accepted with an end for which that does not come out right - and
      then it never does. */
  lemma BothDatesTightIff(pg: Postgres, t: Tables, id: int, p: WeekUpdate)
    requires DateStrings(pg) && Valid(t) && Tight(t, id) && Shifts(pg, t.weeks[id], p) && p.end.Some?
    ensures Tight(PatchOutcome(pg, t, id, p).0, id) <==>
            (ShiftAccepts(pg, t.weeks[id], p) ==> BothDatesKeep(pg, t.weeks[id], p))
  {
    ShiftAcceptedIff(pg, t, id, p);
    if ShiftAccepts(pg, t.weeks[id], p) {
      var w := t.weeks[id];
      assert IsDate(pg, p.start.value) && IsDate(pg, p.end.value);
      var s, e := DayOf(pg, p.start.value), DayOf(pg, p.end.value);
      hide ShiftAccepts, PatchOutcome;
      BothAreRead(pg, w, p);
      BothDatesStored(pg, t, id, p, s, e);
      BothDatesMeet(t, PatchOutcome(pg, t, id, p).0, id, s, e, Misread(pg, w.end, p.end.value));
    }
  }

  ghost predicate DoubleBooked(ds: Rows, w: int, d: Day) {
    exists i, j | InPlan(ds, w, i) && InPlan(ds, w, j) :: i != j && ds[i].day == d && ds[j].day == d
  }

  /** The everyday case: a plan moved a day later, both dates sent. The patch is accepted, the new last
      day is booked twice, and the plan is no longer one row per day. */
  lemma DayLaterDoubleBooks(pg: Postgres, t: Tables, id: int, a: string, e: string)
    requires DateStrings(pg) && Valid(t) && Tight(t, id) && t.weeks[id].end < FirstFiveDigitDay()
    requires IsDate(pg, a) && IsDate(pg, e)
    requires DayOf(pg, a) == t.weeks[id].start + 1 && DayOf(pg, e) == t.weeks[id].end + 1
    ensures var (u, status) := PatchOutcome(pg, t, id, WeekUpdate(None, Some(a), Some(e), None, None, None, None));
            status == OK && !Tight(u, id) && DoubleBooked(u.dinners, id, DayOf(pg, e))
  {
    var w, s, last := t.weeks[id], DayOf(pg, a), DayOf(pg, e);
    var p := WeekUpdate(None, Some(a), Some(e), None, None, None, None);
    assert pg.castDate(pg.dateText(w.start)) == Some(w.start);
    BothAreRead(pg, w, p);
    AcceptedIff(pg, t, Packed(t.dinners, id, s), id, s, w.end, Shifted(pg, w, s, p));
    assert PatchOutcome(pg, t, id, p).1 == OK;
    BothDatesTightIff(pg, t, id, p);
    BothDatesStored(pg, t, id, p, s, last);
    LastDayTwice(t, id, s);
  }

  lemma LastDayTwice(t: Tables, id: int, s: Day)
    requires Tight(t, id) && Valid(t) && s == t.weeks[id].start + 1
    ensures var end := t.weeks[id].end;
            DoubleBooked(Inserted(Packed(t.dinners, id, s), t.nextDinner, EmptyRows(id, Series(end + 1, end + 1))),
                id, end + 1)
  {
    var w := t.weeks[id];
    hide Packed, Inserted, EmptyRows, Series, DoubleBooked;
    PackedTight(t.dinners, id, w.start, w.end, s);
    PackedFrame(t, id, s);
    BookedTwice(Packed(t.dinners, id, s), t.nextDinner, id, w.end);
  }

  lemma BookedTwice(ds: Rows, next: int, w: int, end: Day)
    requires HasRow(ds, w, end + 1) && forall i | i in ds :: i < next
    ensures DoubleBooked(Inserted(ds, next, EmptyRows(w, Series(end + 1, end + 1))), w, end + 1)
  {
    NewDays(ds, next, w, end, end + 1);
    hide Inserted, EmptyRows, Series;
    var es := Inserted(ds, next, EmptyRows(w, Series(end + 1, end + 1)));
    var i :| i in ds && ds[i].week == w && ds[i].day == end + 1;
    assert InPlan(es, w, i) && InPlan(es, w, next) && i != next && es[i].day == es[next].day == end + 1;
  }

  lemma BothDatesMeet(t: Tables, u: Tables, id: int, s: Day, e: Day, misread: bool)
    requires Tight(t, id) && (forall i | i in t.dinners :: i < t.nextDinner)
    requires id in u.weeks && u.weeks[id].start == s && u.weeks[id].end == e && s != t.weeks[id].start
    requires var w, ds := t.weeks[id], Packed(t.dinners, id, s);
             u.dinners == if e == w.end || misread then ds else if e < w.end then Truncated(ds, id, e)
                          else Inserted(ds, t.nextDinner, EmptyRows(id, Series(w.end + 1, e)))
    requires misread ==> e < t.weeks[id].end
    ensures var w := t.weeks[id];
            var last := s + (w.end - w.start);
            Tight(u, id) <==> s <= e < w.end && if misread then e == last else e <= last
  {
    var w := t.weeks[id];
    PackedTight(t.dinners, id, w.start, w.end, s);
    BothDatesRows(Packed(t.dinners, id, s), t.nextDinner, id, s, s + (w.end - w.start), w.end, e);
  }

  /** Rows on s..last, resized to `e` as if the plan still ended at `end`. */
  lemma BothDatesRows(ds: Rows, next: int, w: int, s: Day, last: Day, end: Day, e: Day)
    requires OneRowPerDay(ds, w, s, last) && s <= last && last != end && forall i | i in ds :: i < next
    ensures s <= e && OneRowPerDay(ds, w, s, e) <==> e == last
    ensures e < end ==> ((s <= e && OneRowPerDay(Truncated(ds, w, e), w, s, e)) <==> s <= e <= last)
    ensures e > end ==> !(s <= e && OneRowPerDay(Inserted(ds, next, EmptyRows(w, Series(end + 1, e))), w, s, e))
  {
    assert HasRow(ds, w, last);
    var i :| i in ds && ds[i].week == w && ds[i].day == last;
    assert InPlan(ds, w, i);
    assert s <= e && OneRowPerDay(ds, w, s, e) ==> HasRow(ds, w, e);
    if e < end {
      if e <= last { TruncatedTight(ds, w, s, last, e); }
      var es := Truncated(ds, w, e);
      assert HasRow(es, w, e) ==> HasRow(ds, w, e);
    } else if e > end && s <= e {
      DoubleBookedOrGap(ds, next, w, s, last, end, e);
    }
  }

  lemma DoubleBookedOrGap(ds: Rows, next: int, w: int, s: Day, last: Day, end: Day, e: Day)
    requires OneRowPerDay(ds, w, s, last) && s <= last && last != end && s <= e && end < e
    requires forall i | i in ds :: i < next
    ensures !OneRowPerDay(Inserted(ds, next, EmptyRows(w, Series(end + 1, e))), w, s, e)
  {
    NewDays(ds, next, w, end, e);
    var es := Inserted(ds, next, EmptyRows(w, Series(end + 1, e)));
    if last < end {
      // The old last day is inside the new plan and empty.
      assert !HasRow(es, w, end);
    } else {
      // A day past the old end gets both its dinner and an empty row.
      var d := if s > end then s else end + 1;
      assert HasRow(ds, w, d);
      var i :| i in ds && ds[i].week == w && ds[i].day == d;
      var j := next + (d - end - 1);
      assert InPlan(es, w, i) && InPlan(es, w, j) && es[i].day == es[j].day;
    }
  }
}
