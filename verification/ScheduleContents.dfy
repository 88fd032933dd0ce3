/** What the schedule engine writes: the plan rows it makes and changes, field by field, the labels they
    get, and the rows of the days it adds. */
module ScheduleContents {
  import opened Wrappers
  import opened Calendar
  import opened SqlUpdate
  import opened Dinners
  import opened Schedule
  import opened ScheduleTheorems
  import opened ScheduleRuns

  // ---- making plans --------------------------------------------------------------

  /** A create is accepted exactly when both dates look like dates and cast, and makes one draft with the
      dates and notes sent, the label of its start, no delivery or order date, and no dinners. */
  lemma CreatedAsSent(pg: Postgres, t: Tables, start: string, end: string, notes: string)
    requires Valid(t)
    ensures var (u, status) := CreateOutcome(pg, t, start, end, notes);
            && (status == BadRequest <==> !MatchesDateRE(start) || !MatchesDateRE(end))
            && (status == OK <==> IsDate(pg, start) && IsDate(pg, end)) && (status != OK ==> u == t)
            && (status == OK ==>
                  && t.nextWeek !in t.weeks && u.weeks.Keys == t.weeks.Keys + {t.nextWeek}
                  && (forall w | w in t.weeks :: u.weeks[w] == t.weeks[w])
                  && u == t.(weeks := u.weeks, nextWeek := t.nextWeek + 1)
                  && PlanIds(u.dinners, t.nextWeek) == {}
                  && var w := u.weeks[t.nextWeek];
                     && Some(w.start) == pg.castDate(start) && Some(w.end) == pg.castDate(end) && w.notes == notes
                     && w.isoWeek == pg.isoLabel(w.start) && w.delivery == None && w.order == None
                     && w.status == "draft")
  {
    NoRowsYet(t);
  }

  lemma NoRowsYet(t: Tables)
    requires Valid(t)
    ensures t.nextWeek !in t.weeks && PlanIds(t.dinners, t.nextWeek) == {}
  {
    FreshTarget(t);
    NonEmpty(PlanIds(t.dinners, t.nextWeek));
  }

  /** A clone is accepted exactly when its source is there and the start, if sent, is a date. The new plan
      starts on that day, or a week after the source, and lasts as long; it has the label of its own
      start, no delivery or order date and no notes, whatever the source has, and it is a draft. */
  lemma ClonedAsSent(pg: Postgres, t: Tables, source: int, start: string)
    requires Valid(t)
    ensures var (u, status) := CloneOutcome(pg, t, source, start);
            && (status == BadRequest <==> start != "" && !MatchesDateRE(start))
            && (status == OK <==> source in t.weeks && (start == "" || IsDate(pg, start))) && (status != OK ==> u == t)
            && (status == OK ==>
                  && t.nextWeek !in t.weeks && u.weeks.Keys == t.weeks.Keys + {t.nextWeek}
                  && (forall w | w in t.weeks :: u.weeks[w] == t.weeks[w])
                  && var src, w := t.weeks[source], u.weeks[t.nextWeek];
                     && (if start == "" then w.start == src.start + 7 else Some(w.start) == pg.castDate(start))
                     && w.end - w.start == src.end - src.start
                     && w.isoWeek == pg.isoLabel(w.start) && w.delivery == None && w.order == None
                     && w.notes == "" && w.status == "draft")
  {
    var (u, status) := CloneOutcome(pg, t, source, start);
    if status == OK {
      CloneFrame(pg, t, source, u.weeks[t.nextWeek].start);
    }
  }

  /** The k-th dinner of a plan carries the same in both plans, and there are as many. */
  ghost predicate SameMenu(ds: Rows, a: int, b: int) {
    var p, q := Menu(ds, a), Menu(ds, b);
    |p| == |q| && forall k | 0 <= k < |p| :: p[k] in ds && q[k] in ds && ds[p[k]].slot == ds[q[k]].slot
  }

  /** Two plans with the same bounds and the same menu clone to the same plan and the same rows,
      whatever else they hold - labels, dates of delivery, notes, status, or the days of the dinners. */
  lemma TwinsCloneAlike(pg: Postgres, t: Tables, a: int, b: int, start: string)
    requires Valid(t) && a in t.weeks && b in t.weeks && SameMenu(t.dinners, a, b)
    requires t.weeks[a].start == t.weeks[b].start && t.weeks[a].end == t.weeks[b].end
    ensures var u, v := CloneOutcome(pg, t, a, start).0, CloneOutcome(pg, t, b, start).0;
            u.weeks == v.weeks && u.dinners == v.dinners
  {
    var u, v := CloneOutcome(pg, t, a, start).0, CloneOutcome(pg, t, b, start).0;
    if CloneOutcome(pg, t, a, start).1 == OK {
      var s := u.weeks[t.nextWeek].start;
      TwinPlans(pg, t, a, b, s);
      TwinRows(pg, t, a, b, s);
    }
  }

  lemma TwinPlans(pg: Postgres, t: Tables, a: int, b: int, s: Day)
    requires Valid(t) && a in t.weeks && b in t.weeks
    requires t.weeks[a].start == t.weeks[b].start && t.weeks[a].end == t.weeks[b].end
    ensures Cloned(pg, t, a, s).weeks == Cloned(pg, t, b, s).weeks
  {
  }

  lemma TwinRows(pg: Postgres, t: Tables, a: int, b: int, s: Day)
    requires Valid(t) && a in t.weeks && b in t.weeks && SameMenu(t.dinners, a, b)
    requires t.weeks[a].start == t.weeks[b].start && t.weeks[a].end == t.weeks[b].end
    ensures Cloned(pg, t, a, s).dinners == Cloned(pg, t, b, s).dinners
  {
    var d := t.weeks[a].end - t.weeks[a].start + 1;
    hide *;
    TwinLists(t.dinners, a, b, t.nextWeek, s, d);
    ClonedRows(pg, t, a, s);
    ClonedRows(pg, t, b, s);
    SameAdded(t.dinners, Cloned(pg, t, a, s).dinners, Cloned(pg, t, b, s).dinners, t.nextDinner,
        CloneList(t.dinners, a, t.nextWeek, s, d));
  }

  lemma TwinLists(ds: Rows, a: int, b: int, target: int, s: Day, d: int)
    requires SameMenu(ds, a, b)
    ensures CloneList(ds, a, target, s, d) == CloneList(ds, b, target, s, d)
  {
    hide CloneList, Menu;
    CloneListAt(ds, a, target, s, d);
    CloneListAt(ds, b, target, s, d);
    forall k | 0 <= k < |Menu(ds, a)| ensures SlotAt(ds, a, k) == SlotAt(ds, b, k) {
      assert Menu(ds, a)[k] in ds && Menu(ds, b)[k] in ds;
    }
  }

  lemma SameAdded(ds: Rows, x: Rows, y: Rows, next: int, l: seq<Dinner>)
    requires RowsAre(ds, x, next, l) && RowsAre(ds, y, next, l)
    ensures x == y
  {
    forall i ensures i in x <==> i in y { }
    forall i | i in x ensures x[i] == y[i] { }
  }

  /** A day that an extension or the padding of a clone adds is one dinner row with no dish: four servings,
      no sourcing, no notes, first in order. */
  lemma {:induction false} AddedDaysAreEmpty(w: int, days: seq<Day>, k: int)
    requires 0 <= k < |days|
    ensures |EmptyRows(w, days)| == |days|
    ensures var row := EmptyRows(w, days)[k];
            && row.week == w && row.day == days[k] && row.slot.dish == None && row.slot.servings == 4
            && row.slot.sourcing == "{}" && row.slot.notes == "" && row.slot.sortOrder == 0
    decreases |days|
  {
    if |days| > 1 { AddedDaysAreEmpty(w, days[1..], if k > 0 then k - 1 else 0); }
  }

  // ---- changing plans ------------------------------------------------------------

  /** Which answer a PATCH gets when it is not accepted: 400 for what does not look like a date or an end
      compared to be before the start, 404 for a plan that is not there or a patch of nothing. */
  lemma PatchAnswers(pg: Postgres, t: Tables, id: int, p: WeekUpdate)
    requires RoundTrips(pg)
    ensures var status := PatchOutcome(pg, t, id, p).1;
            var badDate := (p.start.Some? && !MatchesDateRE(p.start.value))
                           || (p.end.Some? && !MatchesDateRE(p.end.value));
            && (badDate ==> status == BadRequest)
            && (!badDate && id !in t.weeks ==> status == NotFound)
            && (!badDate && id in t.weeks ==>
                  && (status == NotFound <==> p == WeekUpdate(None, None, None, None, None, None, None))
                  && (p.start.None? ==>
                        (status == BadRequest <==>
                           && p.end.Some? && p.end.value != pg.dateText(t.weeks[id].end)
                           && Before(p.end.value, pg.dateText(t.weeks[id].start)))))
  {
    hide Packed, Truncated, Inserted, EmptyRows, Series, Updated, CastsAll, Allowed;
  }

  /** The bounds and the label an accepted PATCH leaves. A moved start brings the end along, unless one is
      sent, and the label of the new start, unless one is sent; nothing else is derived. */
  lemma PatchedAsSent(pg: Postgres, t: Tables, id: int, p: WeekUpdate)
    requires RoundTrips(pg) && PatchOutcome(pg, t, id, p).1 == OK
    ensures var u := PatchOutcome(pg, t, id, p).0;
            && id in t.weeks && u.weeks.Keys == t.weeks.Keys
            && (forall w | w in t.weeks && w != id :: u.weeks[w] == t.weeks[w])
            && var w, v := t.weeks[id], u.weeks[id];
               var moved := p.start.Some? && p.start.value != pg.dateText(w.start);
               && (if p.start.Some? then pg.castDate(p.start.value) == Some(v.start) else v.start == w.start)
               && (if p.end.Some? then pg.castDate(p.end.value) == Some(v.end)
                   else v.end == w.end + (v.start - w.start))
               && v.isoWeek == (if p.isoWeek.Some? then p.isoWeek.value
                                else if moved then pg.isoLabel(v.start) else w.isoWeek)
               && v.delivery == (if p.delivery.None? then w.delivery
                                 else if p.delivery == Some("") then None else pg.castDate(p.delivery.value))
               && v.order == (if p.order.None? then w.order
                              else if p.order == Some("") then None else pg.castDate(p.order.value))
               && v.status == (if p.status.Some? then p.status.value else w.status)
               && v.notes == (if p.notes.Some? then p.notes.value else w.notes)
  {
    hide Packed, Truncated, Inserted, EmptyRows, Series;
    var w := t.weeks[id];
    if !Shifts(pg, w, p) {
      AcceptedBounds(pg, t, t.dinners, id, w.start, w.end, p);
      CommittedAsSent(pg, t, t.dinners, id, w.start, w.end, p);
    } else {
      var s := pg.castDate(p.start.value).value;
      var end := if p.end.Some? then w.end else w.end + (s - w.start);
      AcceptedBounds(pg, t, Packed(t.dinners, id, s), id, s, end, Shifted(pg, w, s, p));
      CommittedAsSent(pg, t, Packed(t.dinners, id, s), id, s, end, Shifted(pg, w, s, p));
    }
  }

  lemma CommittedAsSent(pg: Postgres, t: Tables, ds: Rows, id: int, start: Day, end: Day, p: WeekUpdate)
    requires id in t.weeks && Resized(pg, t, ds, id, start, end, p).1 == OK
    ensures WeekUpdated(pg, t.weeks, id, p).Some?
    ensures Resized(pg, t, ds, id, start, end, p).0.weeks == WeekUpdated(pg, t.weeks, id, p).value.0
    ensures !DateChange(pg, p.start).Null? && !DateChange(pg, p.end).Null?
  {
  }

  // ---- labels over runs ------------------------------------------------------------

  /** Every plan of `s` carries the label of the week its start is in. */
  ghost predicate Labelled(pg: Postgres, t: Tables, s: set<int>) {
    forall w | w in s :: w in t.weeks && t.weeks[w].isoWeek == pg.isoLabel(t.weeks[w].start)
  }

  /** The request names no label of its own, except the right one for the start it leaves. */
  predicate KeepsLabels(pg: Postgres, t: Tables, r: Request) {
    r.Patch? && r.patch.isoWeek.Some? && r.id in t.weeks ==>
      var w, p := t.weeks[r.id], r.patch;
      var start := if p.start.Some? && pg.castDate(p.start.value).Some? then pg.castDate(p.start.value).value
                   else w.start;
      p.isoWeek.value == pg.isoLabel(start)
  }

  ghost predicate AllKeepLabels(pg: Postgres, t: Tables, rs: seq<Request>)
    decreases |rs|
  {
    rs != [] ==> KeepsLabels(pg, t, rs[0]) && AllKeepLabels(pg, Step(pg, t, rs[0]).0, rs[1..])
  }

  lemma StepLabels(pg: Postgres, t: Tables, r: Request, s: set<int>)
    requires DateStrings(pg) && Valid(t) && Labelled(pg, t, s) && KeepsLabels(pg, t, r)
    ensures var u := Step(pg, t, r).0;
            Valid(u) && t.weeks.Keys <= u.weeks.Keys && Labelled(pg, u, s + (u.weeks.Keys - t.weeks.Keys))
  {
    RequestInOrder(pg, t, r);
    hide PatchOutcome, CloneOutcome, CreateOutcome, Valid;
    match r
    case Patch(id, p) =>
      PatchRefused(pg, t, id, p);
      if PatchOutcome(pg, t, id, p).1 == OK { PatchedAsSent(pg, t, id, p); }
    case Clone(source, d) => ClonedAsSent(pg, t, source, d);
    case Create(a, b, n) => CreatedAsSent(pg, t, a, b, n);
  }

  lemma PatchRefused(pg: Postgres, t: Tables, id: int, p: WeekUpdate)
    ensures PatchOutcome(pg, t, id, p).1 != OK ==> PatchOutcome(pg, t, id, p).0 == t
  {
    hide Packed, Truncated, Inserted, EmptyRows, Series, Updated, CastsAll, Allowed;
  }

  /** Over every run of creates, clones and patches that name no wrong label themselves, the plans that
      carried the label of their start still do, and so does every plan made on the way. */
  lemma {:induction false} RunKeepsLabels(pg: Postgres, t: Tables, rs: seq<Request>, s: set<int>)
    requires DateStrings(pg) && Valid(t) && Labelled(pg, t, s) && AllKeepLabels(pg, t, rs)
    ensures var u := Run(pg, t, rs);
            t.weeks.Keys <= u.weeks.Keys && Labelled(pg, u, s + (u.weeks.Keys - t.weeks.Keys))
    decreases |rs|
  {
    hide Step, Valid, KeepsLabels, DateStrings;
    if rs != [] {
      var a := Step(pg, t, rs[0]).0;
      StepLabels(pg, t, rs[0], s);
      RunKeepsLabels(pg, a, rs[1..], s + (a.weeks.Keys - t.weeks.Keys));
    }
  }
}
