/** The week schedule engine: creating, patching and cloning plans over the weeks
    and week_dinners tables. `Database` runs the handlers statement by statement
    inside a transaction; the functions give each request's whole outcome. */
module Schedule {
  import opened Wrappers
  import opened Calendar
  import opened SqlUpdate
  import opened Dinners

  datatype Tables = Tables(weeks: map<int, Week>, dinners: Rows, nextWeek: int, nextDinner: int)

  datatype Status = OK | BadRequest | NotFound | ServerError

  /** Fresh ids, the foreign key, the status CHECK, and no plan starting before year 1. */
  ghost predicate Valid(t: Tables) {
    (forall i | i in t.weeks :: i < t.nextWeek && KnownStatus(t.weeks[i].status) && 0 <= t.weeks[i].start)
    && (forall i | i in t.dinners :: i < t.nextDinner && t.dinners[i].week in t.weeks)
  }

  // ---- the SQL statements ---------------------------------------------------

  /** UPDATE ... SET day_date = start + row_number() - 1. */
  function Packed(ds: Rows, w: int, start: Day): Rows {
    map i | i in ds :: if ds[i].week == w then ds[i].(day := start + Rank(ds, i)) else ds[i]
  }

  /** DELETE ... WHERE day_date > end. */
  function Truncated(ds: Rows, w: int, end: Day): Rows {
    map i | i in ds && !(ds[i].week == w && ds[i].day > end) :: ds[i]
  }

  /** generate_series(a, b, '1 day'). */
  function Series(a: Day, b: Day): seq<Day>
    decreases b - a
  {
    if a > b then [] else [a] + Series(a + 1, b)
  }

  /** INSERT: the rows get the next ids, in order. */
  function Inserted(ds: Rows, next: int, rows: seq<Dinner>): Rows {
    if rows == [] then ds
    else
      var k := |rows| - 1;
      Inserted(ds, next, rows[..k])[next + k := rows[k]]
  }

  function EmptyRows(w: int, days: seq<Day>): seq<Dinner> {
    if days == [] then [] else [Dinner(w, days[0], EMPTY_SLOT)] + EmptyRows(w, days[1..])
  }

  function SlotOf(ds: Rows, i: int): Slot {
    if i in ds then ds[i].slot else EMPTY_SLOT
  }

  /** The rows listed by `q`, copied to plan `target` on consecutive days from `start`. */
  function Redated(ds: Rows, q: seq<int>, target: int, start: Day): seq<Dinner> {
    if q == [] then []
    else Redated(ds, q[..|q| - 1], target, start) + [Dinner(target, start + |q| - 1, SlotOf(ds, q[|q| - 1]))]
  }

  /** The source rows in reading order, re-dated from `start`. */
  ghost function Copies(ds: Rows, source: int, target: int, start: Day): seq<Dinner> {
    Redated(ds, Menu(ds, source), target, start)
  }

  predicate HasRow(ds: Rows, w: int, d: Day) {
    exists i | i in ds :: ds[i].week == w && ds[i].day == d
  }

  /** The days of `days` on which plan `w` has no row. */
  function Vacant(ds: Rows, w: int, days: seq<Day>): seq<Day> {
    if days == [] then []
    else (if HasRow(ds, w, days[0]) then [] else [days[0]]) + Vacant(ds, w, days[1..])
  }

  // ---- outcomes -------------------------------------------------------------

  predicate BadDate(v: Option<string>) {
    v.Some? && !MatchesDateRE(v.value)
  }

  predicate Shifts(pg: Postgres, w: Week, p: WeekUpdate) {
    p.start.Some? && p.start.value != pg.dateText(w.start)
  }

  /** The final UPDATE and the commit; on any failure the transaction is rolled back to `t0`. */
  function Committed(pg: Postgres, t0: Tables, t: Tables, id: int, p: WeekUpdate): (Tables, Status) {
    match WeekUpdated(pg, t.weeks, id, p)
    case None => (t0, ServerError)
    case Some((weeks, n)) => if n == 0 then (t0, NotFound) else (t.(weeks := weeks), OK)
  }

  /** The end-resize side effects on the rows, judged against the bounds `start`..`end`. */
  function ResizedRows(pg: Postgres, ds: Rows, next: int, id: int, start: Day, end: Day, p: WeekUpdate)
    : Result<(Rows, int), Status>
  {
    if p.end.None? || p.end.value == pg.dateText(end) then Ok((ds, next))
    else if Before(p.end.value, pg.dateText(start)) then Err(BadRequest)
    else
      match pg.castDate(p.end.value)
      case None => Err(ServerError)
      case Some(e) =>
        if Before(p.end.value, pg.dateText(end)) then Ok((Truncated(ds, id, e), next))
        else
          var rows := EmptyRows(id, Series(end + 1, e));
          Ok((Inserted(ds, next, rows), next + |rows|))
  }

  function Resized(pg: Postgres, t: Tables, ds: Rows, id: int, start: Day, end: Day, p: WeekUpdate): (Tables, Status) {
    match ResizedRows(pg, ds, t.nextDinner, id, start, end, p)
    case Err(status) => (t, status)
    case Ok((rows, next)) => Committed(pg, t, t.(dinners := rows, nextDinner := next), id, p)
  }

  /** What the patch becomes once a start shift has filled in the fields the client left out. */
  function Shifted(pg: Postgres, w: Week, s: Day, p: WeekUpdate): WeekUpdate {
    p.(end := if p.end.Some? then p.end else Some(pg.dateText(w.end + (s - w.start))),
       isoWeek := if p.isoWeek.Some? then p.isoWeek else Some(pg.isoLabel(s)))
  }

  function PatchOutcome(pg: Postgres, t: Tables, id: int, p: WeekUpdate): (Tables, Status) {
    if BadDate(p.start) || BadDate(p.end) then (t, BadRequest)
    else if id !in t.weeks then (t, NotFound)
    else
      var w := t.weeks[id];
      if !Shifts(pg, w, p) then Resized(pg, t, t.dinners, id, w.start, w.end, p)
      else
        match pg.castDate(p.start.value)
        case None => (t, ServerError)
        case Some(s) =>
          var end := if p.end.Some? then w.end else w.end + (s - w.start);
          Resized(pg, t, Packed(t.dinners, id, s), id, s, end, Shifted(pg, w, s, p))
  }

  function TargetWeek(pg: Postgres, src: Week, start: Day): Week {
    Week(pg.isoLabel(start), start, start + (src.end - src.start), None, None, "draft", "")
  }

  /** The pad statement's rows: an empty one on every day of the target without one. */
  function Pads(ds: Rows, target: int, start: Day, end: Day): seq<Dinner> {
    EmptyRows(target, Vacant(ds, target, Series(start, end)))
  }

  /** The rows after the copy statement of a clone. */
  ghost function Copied(ds: Rows, next: int, source: int, target: int, start: Day): Rows {
    Inserted(ds, next, Copies(ds, source, target, start))
  }

  /** A fresh draft of the source's duration, its dinners packed from its own first day, its empty days padded. */
  ghost function Cloned(pg: Postgres, t: Tables, source: int, start: Day): Tables
    requires source in t.weeks
  {
    var target := TargetWeek(pg, t.weeks[source], start);
    var copied := Copied(t.dinners, t.nextDinner, source, t.nextWeek, start);
    var next := t.nextDinner + |Menu(t.dinners, source)|;
    var pads := Pads(copied, t.nextWeek, start, target.end);
    Tables(t.weeks[t.nextWeek := target], Inserted(copied, next, pads), t.nextWeek + 1, next + |pads|)
  }

  ghost function CloneOutcome(pg: Postgres, t: Tables, source: int, start: string): (Tables, Status) {
    if start != "" && !MatchesDateRE(start) then (t, BadRequest)
    else if source !in t.weeks then (t, NotFound)
    else if start == "" then (Cloned(pg, t, source, t.weeks[source].start + 7), OK)
    else match pg.castDate(start) case None => (t, ServerError) case Some(s) => (Cloned(pg, t, source, s), OK)
  }

  function CreateOutcome(pg: Postgres, t: Tables, start: string, end: string, notes: string): (Tables, Status) {
    if !MatchesDateRE(start) || !MatchesDateRE(end) then (t, BadRequest)
    else
      match (pg.castDate(start), pg.castDate(end))
      case (Some(s), Some(e)) =>
        (t.(weeks := t.weeks[t.nextWeek := Week(pg.isoLabel(s), s, e, None, None, "draft", notes)],
            nextWeek := t.nextWeek + 1), OK)
      case _ => (t, ServerError)
  }

  // ---- the handlers ---------------------------------------------------------

  class Database {
    const pg: Postgres
    var weeks: map<int, Week>
    var dinners: Rows
    var nextWeek: int
    var nextDinner: int

    constructor (pg: Postgres)
      ensures this.pg == pg && State() == Tables(map[], map[], 1, 1) && Valid(State())
    {
      this.pg := pg;
      weeks, dinners, nextWeek, nextDinner := map[], map[], 1, 1;
    }

    ghost function State(): Tables
      reads this
    {
      Tables(weeks, dinners, nextWeek, nextDinner)
    }

    method HandlePatchWeek(id: int, patch: WeekUpdate) returns (status: Status)
      requires Valid(State()) && RoundTrips(pg)
      modifies this
      ensures (State(), status) == PatchOutcome(pg, old(State()), id, patch)
    {
      var p := patch;
      if BadDate(p.start) || BadDate(p.end) {
        return BadRequest;
      }
      if id !in weeks {
        return NotFound;
      }
      // Begin: the transaction's own view of the rows.
      var txDinners := dinners;
      var curStart, curEnd := pg.dateText(weeks[id].start), pg.dateText(weeks[id].end);
      ghost var start, end := weeks[id].start, weeks[id].end;
      var effectiveEnd := curEnd;
      if p.start.Some? && p.start.value != curStart {
        var s := pg.castDate(p.start.value);
        if s.None? {
          return ServerError;
        }
        txDinners := Packed(txDinners, id, s.value);
        if p.end.None? {
          effectiveEnd := pg.dateText(weeks[id].end + (s.value - weeks[id].start));
          end := end + (s.value - start);
          p := p.(end := Some(effectiveEnd));
        }
        if p.isoWeek.None? {
          p := p.(isoWeek := Some(pg.isoLabel(s.value)));
        }
        assert IsDate(pg, p.start.value);
        start := s.value;
        curStart := p.start.value;
        curEnd := effectiveEnd;
      }
      var sized := ResizeEnd(txDinners, id, p, curStart, curEnd, start, end);
      if sized.Err? {
        return sized.error;
      }
      var r := UpdateWeek(pg, weeks, id, p);
      if r.None? {
        return ServerError;
      }
      if r.value.1 == 0 {
        return NotFound;
      }
      // Commit.
      weeks, dinners, nextDinner := r.value.0, sized.value.0, sized.value.1;
      status := OK;
    }

    method ResizeEnd(ds: Rows, id: int, p: WeekUpdate, curStart: string, curEnd: string, ghost start: Day,
        ghost end: Day)
      returns (r: Result<(Rows, int), Status>)
      requires RoundTrips(pg) && curStart == pg.dateText(start) && curEnd == pg.dateText(end)
      ensures r == ResizedRows(pg, ds, nextDinner, id, start, end, p)
    {
      r := Ok((ds, nextDinner));
      if p.end.Some? && p.end.value != curEnd {
        if Before(p.end.value, curStart) {
          return Err(BadRequest);
        }
        var e := pg.castDate(p.end.value);
        if e.None? {
          return Err(ServerError);
        }
        BeforeTotal(p.end.value, curEnd);
        if Before(p.end.value, curEnd) {
          r := Ok((Truncated(ds, id, e.value), nextDinner));
        } else if Before(curEnd, p.end.value) {
          var after := pg.castDate(curEnd);
          var rows := EmptyRows(id, Series(after.value + 1, e.value));
          r := Ok((Inserted(ds, nextDinner, rows), nextDinner + |rows|));
        }
      }
    }

    /** INSERT ... SELECT: copies the source rows one by one in row_number() order. */
    method CopyDinners(ds: Rows, next: int, source: int, target: int, start: Day) returns (r: Rows, after: int)
      requires forall i | i in ds :: i < next
      ensures r == Copied(ds, next, source, target, start)
      ensures after == next + |Menu(ds, source)|
    {
      var n := |PlanIds(ds, source)|;
      ghost var q := Menu(ds, source);
      MenuSize(ds, source);
      var rows: seq<Dinner> := [];
      for k := 0 to n
        invariant rows == Redated(ds, q[..k], target, start)
      {
        MenuListed(ds, source);
        RankIsPlace(ds, source, q, k);
        assert ds[q[k]].week == source;
        var i :| i in ds && ds[i].week == source && Rank(ds, i) == k;
        ghost var j :| 0 <= j < |q| && q[j] == i;
        RankIsPlace(ds, source, q, j);
        assert q[..k + 1][..k] == q[..k];
        rows := rows + [Dinner(target, start + k, ds[i].slot)];
      }
      assert q[..n] == q;
      r, after := Inserted(ds, next, rows), next + n;
    }

    /** The clone transaction: create the target, copy and pack, pad the empty days. */
    method CloneInto(source: int, newStart: Day)
      requires source in weeks && forall i | i in dinners :: i < nextDinner
      modifies this
      ensures var t := Cloned(pg, old(State()), source, newStart);
              weeks == t.weeks && dinners == t.dinners && nextWeek == t.nextWeek && nextDinner == t.nextDinner
    {
      var target, src := nextWeek, weeks[source];
      weeks := weeks[target := TargetWeek(pg, src, newStart)];
      nextWeek := target + 1;
      var copied, next := CopyDinners(dinners, nextDinner, source, target, newStart);
      var pads := Pads(copied, target, newStart, newStart + (src.end - src.start));
      dinners, nextDinner := Inserted(copied, next, pads), next + |pads|;
    }

    method HandleCloneWeek(source: int, startDate: string) returns (status: Status)
      requires Valid(State())
      modifies this
      ensures (State(), status) == CloneOutcome(pg, old(State()), source, startDate)
    {
      if startDate != "" && !MatchesDateRE(startDate) {
        return BadRequest;
      }
      if source !in weeks {
        return NotFound;
      }
      var newStart := weeks[source].start + 7;
      if startDate != "" {
        var s := pg.castDate(startDate);
        if s.None? {
          return ServerError;
        }
        newStart := s.value;
      }
      CloneInto(source, newStart);
      status := OK;
    }

    method HandleCreateWeek(start: string, end: string, notes: string) returns (status: Status)
      modifies this
      ensures (State(), status) == CreateOutcome(pg, old(State()), start, end, notes)
    {
      if !MatchesDateRE(start) || !MatchesDateRE(end) {
        return BadRequest;
      }
      var s, e := pg.castDate(start), pg.castDate(end);
      if s.None? || e.None? {
        return ServerError;
      }
      weeks := weeks[nextWeek := Week(pg.isoLabel(s.value), s.value, e.value, None, None, "draft", notes)];
      nextWeek := nextWeek + 1;
      status := OK;
    }
  }
}
