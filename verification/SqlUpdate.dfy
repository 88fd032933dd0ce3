/** The partial-update builders of the store package: a SET list of numbered
    placeholders grown side by side with its argument list, then run by Postgres. */
module SqlUpdate {
  import opened Wrappers
  import opened Calendar

  /** What Postgres contributes: printing a date, casting to one, and the ISO week label of a day. */
  datatype Postgres = Postgres(dateText: Day -> string, castDate: string -> Option<Day>, isoLabel: Day -> string)

  /** Dates are printed and read by the calendar, and what was printed is read back. */
  ghost predicate Calendrical(pg: Postgres) {
    (forall n: Day :: pg.dateText(n) == Text(n))
    && (forall n: Day :: pg.castDate(Text(n)) == Some(n))
    && (forall s: string | MatchesDateRE(s) :: pg.castDate(s) == ParseDate(s))
  }

  /** A date string the handlers accept and Postgres can cast. */
  predicate IsDate(pg: Postgres, s: string) {
    MatchesDateRE(s) && pg.castDate(s).Some?
  }

  function DayOf(pg: Postgres, s: string): Day
    requires IsDate(pg, s)
  {
    pg.castDate(s).value
  }

  /** The cast undoes printing, and a client date is printed as it was sent. */
  ghost predicate RoundTrips(pg: Postgres) {
    (forall n: Day :: pg.dateText(n) != "" && pg.castDate(pg.dateText(n)) == Some(n))
    && forall s: string | IsDate(pg, s) :: pg.dateText(DayOf(pg, s)) == s
  }

  /** All the schedule engine needs of dates: client dates have years 1 to 9999, and against
      a stored date of such a year the string comparison is the calendar's. */
  ghost predicate DateStrings(pg: Postgres) {
    RoundTrips(pg)
    && (forall c: Day | 0 <= c < FirstFiveDigitDay() :: MatchesDateRE(pg.dateText(c)))
    && (forall s: string | IsDate(pg, s) :: 0 <= DayOf(pg, s) < FirstFiveDigitDay())
    && forall s: string, c: Day | IsDate(pg, s) && 0 <= c < FirstFiveDigitDay() ::
         Before(s, pg.dateText(c)) <==> DayOf(pg, s) < c
  }

  /** Casts what was printed, or else what the handlers' regular expression accepts. */
  ghost function CalendarCast(s: string): Option<Day> {
    if exists n: Day :: Text(n) == s then var n: Day :| Text(n) == s; Some(n)
    else if MatchesDateRE(s) then ParseDate(s) else None
  }

  /** There is such a Postgres: no two days are printed alike. */
  lemma CalendricalExists(isoLabel: Day -> string)
    ensures exists pg: Postgres :: Calendrical(pg) && pg.isoLabel == isoLabel
  {
    hide Text, ParseDate, MatchesDateRE;
    var pg := Postgres(Text, CalendarCast, isoLabel);
    forall n: Day ensures pg.castDate(Text(n)) == Some(n) {
      var m: Day :| Text(m) == Text(n) && pg.castDate(Text(n)) == Some(m);
      TextInjective(m, n);
    }
    forall s: string | MatchesDateRE(s) ensures pg.castDate(s) == ParseDate(s) {
      if n: Day :| Text(n) == s {
        TextDistinct(s, n);
      }
    }
    assert Calendrical(pg);
  }

  lemma TextNotEmpty(n: Day)
    ensures Text(n) != ""
  {
  }

  /** The calendar provides it. */
  lemma CalendarOrdersDates(pg: Postgres)
    requires Calendrical(pg)
    ensures DateStrings(pg)
  {
    hide Text, ParseDate, MatchesDateRE, Before, FirstFiveDigitDay;
    forall n: Day ensures pg.dateText(n) != "" { TextNotEmpty(n); }
    forall c: Day | 0 <= c < FirstFiveDigitDay() ensures MatchesDateRE(pg.dateText(c)) { ParseText(c); }
    forall s: string | IsDate(pg, s)
      ensures pg.dateText(DayOf(pg, s)) == s && 0 <= DayOf(pg, s) < FirstFiveDigitDay()
    {
      TextOfParsed(s);
    }
    forall s: string, c: Day | IsDate(pg, s) && 0 <= c < FirstFiveDigitDay()
      ensures Before(s, pg.dateText(c)) <==> DayOf(pg, s) < c
    {
      TextOfParsed(s);
      StringOrderIsCalendarOrder(DayOf(pg, s), c);
    }
  }

  datatype Cell = TextCell(text: string) | DateCell(day: Day) | IntCell(n: int) | NullCell

  /** The columns the two statements can write: those of weeks, then those of household_settings. */
  datatype Column =
    | IsoWeek | StartDate | EndDate | DeliveryDate | OrderDate | Status | NotesMd
    | DefaultDinners | DefaultDeliveryWeekday | DefaultOrderOffsetDays | DefaultServings | Language | LlmProvider

  type Row = map<Column, Cell>

  /** One element of the SET list: `col = $n`, `col = $n::date` or `col = NULL`. */
  datatype Assignment = Param(col: Column, n: int) | DateParam(col: Column, n: int) | SetNull(col: Column)

  datatype Arg = TextArg(text: string) | IntArg(n: int) | NilArg

  // ---- what Postgres does with a SET list and its arguments ------------------

  /** The placeholder numbers of a SET list, in the order they are written. */
  function Placeholders(sets: seq<Assignment>): seq<int> {
    if sets == [] then []
    else Placeholders(sets[..|sets| - 1])
         + match sets[|sets| - 1] { case SetNull(_) => [] case a => [a.n] }
  }

  /** Exactly $1..$k, each once, in order. */
  ghost predicate Numbered(sets: seq<Assignment>, k: nat) {
    Placeholders(sets) == seq(k, i => i + 1)
  }

  function Lookup(args: seq<Arg>, n: int): Arg {
    if 1 <= n <= |args| then args[n - 1] else NilArg
  }

  function Stored(a: Arg): Cell {
    match a case TextArg(s) => TextCell(s) case IntArg(n) => IntCell(n) case NilArg => NullCell
  }

  /** The value one assignment stores; `None` is a failed cast. */
  function Evaluate(pg: Postgres, a: Assignment, args: seq<Arg>): Option<Cell> {
    match a
    case SetNull(_) => Some(NullCell)
    case Param(_, n) => Some(Stored(Lookup(args, n)))
    case DateParam(_, n) =>
      match Lookup(args, n)
      case TextArg(s) => (match pg.castDate(s) case Some(d) => Some(DateCell(d)) case None => None)
      case IntArg(_) => None
      case NilArg => Some(NullCell)
  }

  function RunSets(pg: Postgres, sets: seq<Assignment>, args: seq<Arg>, row: Row): Option<Row> {
    if sets == [] then Some(row)
    else
      var last := sets[|sets| - 1];
      match RunSets(pg, sets[..|sets| - 1], args, row)
      case None => None
      case Some(r) =>
        match Evaluate(pg, last, args)
        case None => None
        case Some(v) => Some(r[last.col := v])
  }

  lemma {:induction false} PlaceholdersInRange(sets: seq<Assignment>, ps: seq<int>, k: nat)
    requires ps == Placeholders(sets) && forall i | 0 <= i < |ps| :: 1 <= ps[i] <= k
    ensures forall a | a in sets && !a.SetNull? :: 1 <= a.n <= k
    decreases |sets|
  {
    if sets != [] {
      var init, last := sets[..|sets| - 1], sets[|sets| - 1];
      var qs := Placeholders(init);
      assert ps[..|qs|] == qs;
      PlaceholdersInRange(init, ps[..|qs|], k);
      assert !last.SetNull? ==> ps[|qs|] == last.n;
      assert sets == init + [last];
    }
  }

  /** Arguments past the highest placeholder do not matter. */
  lemma {:induction false} ExtraArgument(pg: Postgres, sets: seq<Assignment>, args: seq<Arg>, more: seq<Arg>, row: Row)
    requires forall a | a in sets && !a.SetNull? :: 1 <= a.n <= |args|
    ensures RunSets(pg, sets, args + more, row) == RunSets(pg, sets, args, row)
    decreases |sets|
  {
    if sets != [] {
      ExtraArgument(pg, sets[..|sets| - 1], args, more, row);
      assert sets[|sets| - 1] in sets;
    }
  }

  // ---- the builder ----------------------------------------------------------

  /** What one optional field asks for: nothing, NULL, a plain value or a date. */
  datatype Wish = Skip | Clear(col: Column) | Put(col: Column, arg: Arg) | PutDate(col: Column, text: string)

  function Grant(pg: Postgres, wish: Wish, row: Option<Row>): Option<Row> {
    match row
    case None => None
    case Some(r) =>
      match wish
      case Skip => Some(r)
      case Clear(c) => Some(r[c := NullCell])
      case Put(c, a) => Some(r[c := Stored(a)])
      case PutDate(c, s) => match pg.castDate(s) case None => None case Some(d) => Some(r[c := DateCell(d)])
  }

  function GrantAll(pg: Postgres, wishes: seq<Wish>, row: Row): (r: Option<Row>)
    ensures r.Some? ==> row.Keys <= r.value.Keys
  {
    if wishes == [] then Some(row)
    else Grant(pg, wishes[|wishes| - 1], GrantAll(pg, wishes[..|wishes| - 1], row))
  }

  predicate AnyWish(wishes: seq<Wish>) {
    exists w | w in wishes :: !w.Skip?
  }

  class Builder {
    var sets: seq<Assignment>
    var args: seq<Arg>

    constructor ()
      ensures sets == [] && args == []
    {
      sets, args := [], [];
    }

    /** The list built so far stands for `wishes`, with placeholders $1..$n for its n arguments. */
    ghost predicate Means(wishes: seq<Wish>)
      reads this
    {
      Numbered(sets, |args|)
      && (sets == [] <==> !AnyWish(wishes))
      && forall pg: Postgres, row: Row :: RunSets(pg, sets, args, row) == GrantAll(pg, wishes, row)
    }

    method Add(col: Column, val: Arg, ghost wishes: seq<Wish>)
      requires Means(wishes)
      modifies this
      ensures Means(wishes + [Put(col, val)])
    {
      ghost var sets0, args0 := sets, args;
      args := args + [val];
      sets := sets + [Param(col, |args|)];
      Appended(sets0, args0, [val], Param(col, |args|), wishes, Put(col, val));
    }

    /** `addDate`: nil is skipped and "" writes NULL, appending an argument and taking it back. */
    method AddDate(col: Column, v: Option<string>, ghost wishes: seq<Wish>)
      requires Means(wishes)
      modifies this
      ensures Means(wishes + [DateWish(col, v)])
    {
      if v.None? {
        SkippedWish(sets, args, wishes);
        return;
      }
      ghost var sets0, args0 := sets, args;
      if v.value == "" {
        args := args + [NilArg];
        sets := sets + [SetNull(col)];
        args := args[..|args| - 1];
        assert args == args0 + [];
        Appended(sets0, args0, [], SetNull(col), wishes, Clear(col));
        return;
      }
      args := args + [TextArg(v.value)];
      sets := sets + [DateParam(col, |args|)];
      Appended(sets0, args0, [TextArg(v.value)], DateParam(col, |args|), wishes, PutDate(col, v.value));
    }

    method AddIf(col: Column, v: Option<Arg>, ghost wishes: seq<Wish>)
      requires Means(wishes)
      modifies this
      ensures Means(wishes + [FieldWish(col, v)])
    {
      if v.Some? {
        Add(col, v.value, wishes);
      } else {
        SkippedWish(sets, args, wishes);
      }
    }
  }

  function DateWish(col: Column, v: Option<string>): Wish {
    if v.None? then Skip else if v.value == "" then Clear(col) else PutDate(col, v.value)
  }

  function FieldWish(col: Column, v: Option<Arg>): Wish {
    if v.None? then Skip else Put(col, v.value)
  }

  /** An assignment appended together with the argument it numbers grants one more wish. */
  lemma Appended(sets: seq<Assignment>, args: seq<Arg>, more: seq<Arg>, a: Assignment, wishes: seq<Wish>, wish: Wish)
    requires Numbered(sets, |args|) && (sets == [] <==> !AnyWish(wishes)) && !wish.Skip?
    requires forall pg: Postgres, row: Row :: RunSets(pg, sets, args, row) == GrantAll(pg, wishes, row)
    requires match wish
             case Skip => false
             case Clear(c) => more == [] && a == SetNull(c)
             case Put(c, v) => more == [v] && a == Param(c, |args| + 1)
             case PutDate(c, s) => more == [TextArg(s)] && a == DateParam(c, |args| + 1)
    ensures Numbered(sets + [a], |args + more|)
    ensures AnyWish(wishes + [wish])
    ensures forall pg: Postgres, row: Row ::
              RunSets(pg, sets + [a], args + more, row) == GrantAll(pg, wishes + [wish], row)
  {
    assert (sets + [a])[..|sets|] == sets && (wishes + [wish])[..|wishes|] == wishes;
    assert wish in wishes + [wish];
    PlaceholdersInRange(sets, Placeholders(sets), |args|);
    hide Numbered, AnyWish;
    forall pg: Postgres, row: Row
      ensures RunSets(pg, sets + [a], args + more, row) == GrantAll(pg, wishes + [wish], row)
    {
      ExtraArgument(pg, sets, args, more, row);
      assert RunSets(pg, sets, args, row) == GrantAll(pg, wishes, row);
    }
  }

  lemma SkippedWish(sets: seq<Assignment>, args: seq<Arg>, wishes: seq<Wish>)
    ensures AnyWish(wishes + [Skip]) <==> AnyWish(wishes)
    ensures forall pg: Postgres, row: Row :: GrantAll(pg, wishes + [Skip], row) == GrantAll(pg, wishes, row)
  {
    assert (wishes + [Skip])[..|wishes|] == wishes;
    forall w | w in wishes ensures w in wishes + [Skip] { }
  }

  // ---- weeks ----------------------------------------------------------------

  datatype Week = Week(
    isoWeek: string, start: Day, end: Day, delivery: Option<Day>, order: Option<Day>, status: string, notes: string)

  datatype WeekUpdate = WeekUpdate(
    isoWeek: Option<string>, start: Option<string>, end: Option<string>, delivery: Option<string>,
    order: Option<string>, status: Option<string>, notes: Option<string>)

  function DateOrNull(d: Option<Day>): Cell {
    if d.Some? then DateCell(d.value) else NullCell
  }

  function AsRow(w: Week): Row {
    map[IsoWeek := TextCell(w.isoWeek), StartDate := DateCell(w.start), EndDate := DateCell(w.end),
        DeliveryDate := DateOrNull(w.delivery), OrderDate := DateOrNull(w.order),
        Status := TextCell(w.status), NotesMd := TextCell(w.notes)]
  }

  predicate NothingSet(u: WeekUpdate) {
    u == WeekUpdate(None, None, None, None, None, None, None)
  }

  predicate KnownStatus(s: string) {
    s in {"draft", "cart_built", "ordered"}
  }

  /** A column the update asks to write: kept, cleared, a date, or a string no cast accepts. */
  datatype Change<T> = Keep | Null | Write(T) | Bad

  function DateChange(pg: Postgres, v: Option<string>): Change<Day> {
    if v.None? then Keep else if v.value == "" then Null
    else match pg.castDate(v.value) case Some(d) => Write(d) case None => Bad
  }

  predicate CastsAll(pg: Postgres, u: WeekUpdate) {
    Bad !in {DateChange(pg, u.start), DateChange(pg, u.end), DateChange(pg, u.delivery), DateChange(pg, u.order)}
  }

  function Required(c: Change<Day>, was: Day): Day {
    match c case Write(d) => d case _ => was
  }

  function Nullable(c: Change<Day>, was: Option<Day>): Option<Day> {
    match c case Write(d) => Some(d) case Null => None case _ => was
  }

  function Or<T>(v: Option<T>, was: T): T {
    if v.Some? then v.value else was
  }

  /** NOT NULL on the two bounds and the CHECK on status. */
  predicate Allowed(pg: Postgres, u: WeekUpdate) {
    !DateChange(pg, u.start).Null? && !DateChange(pg, u.end).Null?
    && (u.status.Some? ==> KnownStatus(u.status.value))
  }

  /** Field by field: absent keeps, "" clears the two nullable dates, anything else is written. */
  function Updated(pg: Postgres, w: Week, u: WeekUpdate): Week {
    Week(Or(u.isoWeek, w.isoWeek),
         Required(DateChange(pg, u.start), w.start), Required(DateChange(pg, u.end), w.end),
         Nullable(DateChange(pg, u.delivery), w.delivery), Nullable(DateChange(pg, u.order), w.order),
         Or(u.status, w.status), Or(u.notes, w.notes))
  }

  /** The outcome of UpdateWeek: an SQL error, or the rows affected and the new table. */
  function WeekUpdated(pg: Postgres, weeks: map<int, Week>, id: int, u: WeekUpdate): (r: Option<(map<int, Week>, int)>)
    ensures r.Some? && r.value.1 == 0 ==> r.value.0 == weeks
  {
    if NothingSet(u) then Some((weeks, 0))
    else if !CastsAll(pg, u) then None
    else if id !in weeks then Some((weeks, 0))
    else if !Allowed(pg, u) then None
    else Some((weeks[id := Updated(pg, weeks[id], u)], 1))
  }

  function TextField(v: Option<string>): Option<Arg> {
    if v.Some? then Some(TextArg(v.value)) else None
  }

  function WeekWishes(u: WeekUpdate): seq<Wish> {
    [FieldWish(IsoWeek, TextField(u.isoWeek)), DateWish(StartDate, u.start), DateWish(EndDate, u.end),
     DateWish(DeliveryDate, u.delivery), DateWish(OrderDate, u.order),
     FieldWish(Status, TextField(u.status)), FieldWish(NotesMd, TextField(u.notes))]
  }

  /** Builds the statement. The last argument is the row id and its number is the WHERE placeholder. */
  method BuildWeekUpdate(id: int, u: WeekUpdate) returns (sets: seq<Assignment>, args: seq<Arg>)
    ensures sets == [] <==> NothingSet(u)
    ensures sets != [] ==> |args| > 0 && args[|args| - 1] == IntArg(id) && Numbered(sets, |args| - 1)
    ensures forall pg: Postgres, row: Row :: RunSets(pg, sets, args, row) == GrantAll(pg, WeekWishes(u), row)
  {
    var b := new Builder();
    assert b.Means([]);
    b.AddIf(IsoWeek, TextField(u.isoWeek), []);
    ghost var w1 := [] + [FieldWish(IsoWeek, TextField(u.isoWeek))];
    b.AddDate(StartDate, u.start, w1);
    ghost var w2 := w1 + [DateWish(StartDate, u.start)];
    b.AddDate(EndDate, u.end, w2);
    ghost var w3 := w2 + [DateWish(EndDate, u.end)];
    b.AddDate(DeliveryDate, u.delivery, w3);
    ghost var w4 := w3 + [DateWish(DeliveryDate, u.delivery)];
    b.AddDate(OrderDate, u.order, w4);
    ghost var w5 := w4 + [DateWish(OrderDate, u.order)];
    b.AddIf(Status, TextField(u.status), w5);
    ghost var w6 := w5 + [FieldWish(Status, TextField(u.status))];
    b.AddIf(NotesMd, TextField(u.notes), w6);
    assert w6 + [FieldWish(NotesMd, TextField(u.notes))] == WeekWishes(u);
    AnyWeekWish(u);
    sets, args := b.sets, b.args;
    if sets == [] {
      return;
    }
    PlaceholdersInRange(sets, Placeholders(sets), |args|);
    forall pg: Postgres, row: Row
      ensures RunSets(pg, sets, args + [IntArg(id)], row) == GrantAll(pg, WeekWishes(u), row)
    {
      ExtraArgument(pg, sets, args, [IntArg(id)], row);
    }
    args := args + [IntArg(id)];
  }

  lemma AnyWeekWish(u: WeekUpdate)
    ensures AnyWish(WeekWishes(u)) <==> !NothingSet(u)
  {
    var ws := WeekWishes(u);
    assert ws[0] in ws && ws[1] in ws && ws[2] in ws && ws[3] in ws && ws[4] in ws && ws[5] in ws && ws[6] in ws;
  }

  function GrantedInTurn(pg: Postgres, ws: seq<Wish>, row: Row): Option<Row>
    requires |ws| == 7
  {
    Grant(pg, ws[6], Grant(pg, ws[5], Grant(pg, ws[4], Grant(pg, ws[3],
    Grant(pg, ws[2], Grant(pg, ws[1], Grant(pg, ws[0], Some(row))))))))
  }

  lemma SevenWishes(pg: Postgres, ws: seq<Wish>, row: Row)
    requires |ws| == 7
    ensures GrantAll(pg, ws, row) == GrantedInTurn(pg, ws, row)
  {
    assert ws[..1][..0] == [] && ws[..2][..1] == ws[..1] && ws[..3][..2] == ws[..2] && ws[..4][..3] == ws[..3];
    assert ws[..5][..4] == ws[..4] && ws[..6][..5] == ws[..5];
    assert GrantAll(pg, ws[..0], row) == Some(row);
    assert GrantAll(pg, ws[..1], row) == Grant(pg, ws[0], Some(row));
    assert GrantAll(pg, ws[..2], row) == Grant(pg, ws[1], Grant(pg, ws[0], Some(row)));
    assert GrantAll(pg, ws[..4], row) == Grant(pg, ws[3], Grant(pg, ws[2], GrantAll(pg, ws[..2], row)));
    assert GrantAll(pg, ws[..6], row) == Grant(pg, ws[5], Grant(pg, ws[4], GrantAll(pg, ws[..4], row)));
  }

  lemma PlainColumns(pg: Postgres, w: Week, u: WeekUpdate)
    ensures Grant(pg, WeekWishes(u)[0], Some(AsRow(w))).value == AsRow(w.(isoWeek := Or(u.isoWeek, w.isoWeek)))
    ensures Grant(pg, WeekWishes(u)[5], Some(AsRow(w))).value == AsRow(w.(status := Or(u.status, w.status)))
    ensures Grant(pg, WeekWishes(u)[6], Some(AsRow(w))).value == AsRow(w.(notes := Or(u.notes, w.notes)))
  {
  }

  lemma StartColumn(pg: Postgres, w: Week, u: WeekUpdate)
    requires CastsAll(pg, u) && Allowed(pg, u)
    ensures Grant(pg, WeekWishes(u)[1], Some(AsRow(w))) ==
            Some(AsRow(w.(start := Required(DateChange(pg, u.start), w.start))))
  {
    assert AsRow(w)[StartDate := AsRow(w)[StartDate]] == AsRow(w);
    assert Grant(pg, WeekWishes(u)[1], Some(AsRow(w))).value ==
        AsRow(w.(start := Required(DateChange(pg, u.start), w.start)));
  }

  lemma EndColumn(pg: Postgres, w: Week, u: WeekUpdate)
    requires CastsAll(pg, u) && Allowed(pg, u)
    ensures Grant(pg, WeekWishes(u)[2], Some(AsRow(w))) ==
            Some(AsRow(w.(end := Required(DateChange(pg, u.end), w.end))))
  {
    assert AsRow(w)[EndDate := AsRow(w)[EndDate]] == AsRow(w);
    assert Grant(pg, WeekWishes(u)[2], Some(AsRow(w))).value ==
        AsRow(w.(end := Required(DateChange(pg, u.end), w.end)));
  }

  lemma DeliveryColumn(pg: Postgres, w: Week, u: WeekUpdate)
    requires CastsAll(pg, u)
    ensures Grant(pg, WeekWishes(u)[3], Some(AsRow(w))) ==
            Some(AsRow(w.(delivery := Nullable(DateChange(pg, u.delivery), w.delivery))))
  {
    assert Grant(pg, WeekWishes(u)[3], Some(AsRow(w))).value ==
        AsRow(w.(delivery := Nullable(DateChange(pg, u.delivery), w.delivery)));
  }

  lemma OrderColumn(pg: Postgres, w: Week, u: WeekUpdate)
    requires CastsAll(pg, u)
    ensures Grant(pg, WeekWishes(u)[4], Some(AsRow(w))) ==
            Some(AsRow(w.(order := Nullable(DateChange(pg, u.order), w.order))))
  {
    assert Grant(pg, WeekWishes(u)[4], Some(AsRow(w))).value ==
        AsRow(w.(order := Nullable(DateChange(pg, u.order), w.order)));
  }

  /** Running the built SET list on a stored row is the field-by-field update of that row. */
  lemma WishesUpdateRow(pg: Postgres, w: Week, u: WeekUpdate)
    requires CastsAll(pg, u) && Allowed(pg, u)
    ensures GrantAll(pg, WeekWishes(u), AsRow(w)) == Some(AsRow(Updated(pg, w, u)))
  {
    SevenWishes(pg, WeekWishes(u), AsRow(w));
    var x := Updated(pg, w, u);
    var w1 := w.(isoWeek := x.isoWeek);
    var w2 := w1.(start := x.start);
    var w3 := w2.(end := x.end);
    var w4 := w3.(delivery := x.delivery);
    var w5 := w4.(order := x.order);
    var w6 := w5.(status := x.status);
    PlainColumns(pg, w, u);
    StartColumn(pg, w1, u);
    EndColumn(pg, w2, u);
    DeliveryColumn(pg, w3, u);
    OrderColumn(pg, w4, u);
    PlainColumns(pg, w5, u);
    PlainColumns(pg, w6, u);
  }

  lemma CastsDecide(pg: Postgres, u: WeekUpdate, row: Row)
    ensures GrantAll(pg, WeekWishes(u), row).Some? <==> CastsAll(pg, u)
  {
    SevenWishes(pg, WeekWishes(u), row);
  }

  predicate Writes(w: Wish, c: Column) {
    !w.Skip? && w.col == c
  }

  lemma {:induction false} UnwrittenCell(pg: Postgres, ws: seq<Wish>, row: Row, c: Column)
    requires c in row && GrantAll(pg, ws, row).Some? && forall j | 0 <= j < |ws| :: !Writes(ws[j], c)
    ensures c in GrantAll(pg, ws, row).value && GrantAll(pg, ws, row).value[c] == row[c]
    decreases |ws|
  {
    if ws != [] { UnwrittenCell(pg, ws[..|ws| - 1], row, c); }
  }

  /** A column only one wish can write holds what that wish alone makes of it. */
  lemma {:induction false} WrittenCell(pg: Postgres, ws: seq<Wish>, row: Row, c: Column, k: nat)
    requires c in row && GrantAll(pg, ws, row).Some? && k < |ws|
    requires forall j | 0 <= j < |ws| && j != k :: !Writes(ws[j], c)
    ensures var r, one := GrantAll(pg, ws, row).value, Grant(pg, ws[k], Some(row));
            c in r && one.Some? && c in one.value && r[c] == one.value[c]
    decreases |ws|
  {
    var last := |ws| - 1;
    if k == last {
      UnwrittenCell(pg, ws[..last], row, c);
    } else {
      assert ws[..last][k] == ws[k];
      WrittenCell(pg, ws[..last], row, c, k);
    }
  }

  /** With every cast accepted, a forbidden update leaves NULL in a bound or an unknown status. */
  lemma ForbiddenRow(pg: Postgres, u: WeekUpdate, row: Row)
    requires CastsAll(pg, u) && !Allowed(pg, u) && row.Keys == AsRow(Week("", 0, 0, None, None, "", "")).Keys
    ensures var r := GrantAll(pg, WeekWishes(u), row);
            r.Some? && row.Keys <= r.value.Keys && !MeetsConstraints(r.value)
  {
    CastsDecide(pg, u, row);
    hide GrantAll, CastsAll;
    WrittenCell(pg, WeekWishes(u), row, StartDate, 1);
    WrittenCell(pg, WeekWishes(u), row, EndDate, 2);
    WrittenCell(pg, WeekWishes(u), row, Status, 5);
  }

  predicate MeetsConstraints(r: Row)
    requires StartDate in r && EndDate in r && Status in r
  {
    r[StartDate].DateCell? && r[EndDate].DateCell? && r[Status].TextCell? && KnownStatus(r[Status].text)
  }

  function DayIn(c: Cell): Option<Day> {
    if c.DateCell? then Some(c.day) else None
  }

  function TextIn(c: Cell): string {
    if c.TextCell? then c.text else ""
  }

  function FromRow(r: Row): Week
    requires r.Keys >= {IsoWeek, StartDate, EndDate, DeliveryDate, OrderDate, Status, NotesMd}
    requires MeetsConstraints(r)
  {
    Week(TextIn(r[IsoWeek]), r[StartDate].day, r[EndDate].day, DayIn(r[DeliveryDate]), DayIn(r[OrderDate]),
         r[Status].text, TextIn(r[NotesMd]))
  }

  /** Postgres running `UPDATE weeks SET <sets> WHERE id = $<last>`: a failed cast is an error
      whether or not a row matches, a violated constraint only when one does. */
  function Exec(pg: Postgres, weeks: map<int, Week>, sets: seq<Assignment>, args: seq<Arg>)
    : Option<(map<int, Week>, int)>
    requires |args| > 0 && args[|args| - 1].IntArg?
  {
    var id := args[|args| - 1].n;
    if RunSets(pg, sets, args, map[]).None? then None
    else if id !in weeks then Some((weeks, 0))
    else
      match RunSets(pg, sets, args, AsRow(weeks[id]))
      case None => None
      case Some(r) =>
        if r.Keys >= AsRow(weeks[id]).Keys && MeetsConstraints(r) then Some((weeks[id := FromRow(r)], 1)) else None
  }

  lemma AllowedRow(pg: Postgres, w: Week, u: WeekUpdate)
    requires KnownStatus(w.status) && CastsAll(pg, u) && Allowed(pg, u)
    ensures MeetsConstraints(AsRow(Updated(pg, w, u))) && FromRow(AsRow(Updated(pg, w, u))) == Updated(pg, w, u)
  {
  }

  /** UpdateWeek end to end: the generated statement does the field-by-field update, error cases included. */
  method UpdateWeek(pg: Postgres, weeks: map<int, Week>, id: int, u: WeekUpdate)
    returns (r: Option<(map<int, Week>, int)>)
    requires forall i | i in weeks :: KnownStatus(weeks[i].status)
    ensures r == WeekUpdated(pg, weeks, id, u)
  {
    hide CastsAll, Allowed, Updated;
    var sets, args := BuildWeekUpdate(id, u);
    if |sets| == 0 {
      return Some((weeks, 0));
    }
    r := Exec(pg, weeks, sets, args);
    CastsDecide(pg, u, map[]);
    if CastsAll(pg, u) && id in weeks {
      var w := weeks[id];
      if Allowed(pg, u) {
        WishesUpdateRow(pg, w, u);
        AllowedRow(pg, w, u);
      } else {
        ForbiddenRow(pg, u, AsRow(w));
      }
    }
  }

  /** When UpdateWeek fails: it sets something, and a date it sends does not cast, or the row is there
      and it would clear a bound or store a status the table does not know. */
  lemma WeekRefusedIff(pg: Postgres, weeks: map<int, Week>, id: int, u: WeekUpdate)
    ensures WeekUpdated(pg, weeks, id, u).None? <==>
            || (exists v | v in [u.start, u.end, u.delivery, u.order] ::
                  v.Some? && v.value != "" && pg.castDate(v.value).None?)
            || (id in weeks
                && (u.start == Some("") || u.end == Some("")
                    || (u.status.Some? && u.status.value !in ["draft", "cart_built", "ordered"])))
    ensures WeekUpdated(pg, weeks, id, u).Some? ==>
              var (after, n) := WeekUpdated(pg, weeks, id, u).value;
              n == if id in weeks && u != WeekUpdate(None, None, None, None, None, None, None) then 1 else 0
  {
    assert forall v | v in [u.start, u.end, u.delivery, u.order] :: DateChange(pg, v).Bad? <==>
        v.Some? && v.value != "" && pg.castDate(v.value).None?;
    var vs := [u.start, u.end, u.delivery, u.order];
    assert vs[0] in vs && vs[1] in vs && vs[2] in vs && vs[3] in vs;
  }

  /** What an update that got through leaves in each field: what was not sent as it was, an empty
      delivery or order date as none, anything else as sent; and no other row changes. */
  lemma WeekAsSent(pg: Postgres, weeks: map<int, Week>, id: int, u: WeekUpdate)
    requires id in weeks && WeekUpdated(pg, weeks, id, u).Some?
    ensures var after := WeekUpdated(pg, weeks, id, u).value.0;
            && after.Keys == weeks.Keys && (forall i | i in weeks && i != id :: after[i] == weeks[i])
            && var w, v := weeks[id], after[id];
               && v.isoWeek == (if u.isoWeek.Some? then u.isoWeek.value else w.isoWeek)
               && (if u.start.Some? then pg.castDate(u.start.value) == Some(v.start) else v.start == w.start)
               && (if u.end.Some? then pg.castDate(u.end.value) == Some(v.end) else v.end == w.end)
               && v.delivery == (if u.delivery.None? then w.delivery
                                 else if u.delivery == Some("") then None else pg.castDate(u.delivery.value))
               && v.order == (if u.order.None? then w.order
                              else if u.order == Some("") then None else pg.castDate(u.order.value))
               && v.status == (if u.status.Some? then u.status.value else w.status)
               && v.notes == (if u.notes.Some? then u.notes.value else w.notes)
  {
  }

  // ---- household settings ---------------------------------------------------

  datatype SettingsUpdate = SettingsUpdate(
    dinners: Option<int>, weekday: Option<int>, offset: Option<int>, servings: Option<int>,
    language: Option<string>, provider: Option<string>, notes: Option<string>)

  function IntField(v: Option<int>): Option<Arg> {
    if v.Some? then Some(IntArg(v.value)) else None
  }

  function SettingsWishes(u: SettingsUpdate): seq<Wish> {
    [FieldWish(DefaultDinners, IntField(u.dinners)), FieldWish(DefaultDeliveryWeekday, IntField(u.weekday)),
     FieldWish(DefaultOrderOffsetDays, IntField(u.offset)), FieldWish(DefaultServings, IntField(u.servings)),
     FieldWish(Language, TextField(u.language)), FieldWish(LlmProvider, TextField(u.provider)),
     FieldWish(NotesMd, TextField(u.notes))]
  }

  function Overwritten(c: Column, v: Option<Arg>): map<Column, Cell> {
    if v.Some? then map[c := Stored(v.value)] else map[]
  }

  /** The settings row with exactly the present fields overwritten. */
  function SettingsUpdated(row: Row, u: SettingsUpdate): Row {
    row + Overwritten(DefaultDinners, IntField(u.dinners)) + Overwritten(DefaultDeliveryWeekday, IntField(u.weekday))
    + Overwritten(DefaultOrderOffsetDays, IntField(u.offset)) + Overwritten(DefaultServings, IntField(u.servings))
    + Overwritten(Language, TextField(u.language)) + Overwritten(LlmProvider, TextField(u.provider))
    + Overwritten(NotesMd, TextField(u.notes))
  }

  /** A stored INT: Postgres refuses what does not fit 32 bits. */
  const INT_MIN := -0x8000_0000
  const INT_MAX := 0x7fff_ffff

  predicate FitsInt(n: int) {
    INT_MIN <= n <= INT_MAX
  }

  predicate IntWithin(c: Cell, low: int, high: int) {
    c.IntCell? && low <= c.n <= high
  }

  predicate KnownLanguage(s: string) {
    s == "sv" || s == "en"
  }

  /** The column types and CHECK constraints of household_settings. */
  predicate IsSettingsRow(r: Row) {
    && {DefaultDinners, DefaultDeliveryWeekday, DefaultOrderOffsetDays, DefaultServings} <= r.Keys
    && {Language, LlmProvider, NotesMd} <= r.Keys
    && IntWithin(r[DefaultDinners], 1, 14) && IntWithin(r[DefaultDeliveryWeekday], 1, 7)
    && IntWithin(r[DefaultOrderOffsetDays], INT_MIN, INT_MAX) && IntWithin(r[DefaultServings], 1, 20)
    && r[Language].TextCell? && KnownLanguage(r[Language].text) && r[LlmProvider].TextCell? && r[NotesMd].TextCell?
  }

  predicate Within(v: Option<int>, low: int, high: int) {
    v.Some? ==> low <= v.value <= high
  }

  /** What the constraints let through, field by field. */
  predicate SettingsAllowed(u: SettingsUpdate) {
    && Within(u.dinners, 1, 14) && Within(u.weekday, 1, 7) && Within(u.offset, INT_MIN, INT_MAX)
    && Within(u.servings, 1, 20) && (u.language.Some? ==> KnownLanguage(u.language.value))
  }

  lemma CellAfter(r: Row, c: Column, d: Column, v: Option<Arg>)
    requires c in r
    ensures c in r + Overwritten(d, v)
    ensures (r + Overwritten(d, v))[c] == if c == d then OrElse(v, r[c]) else r[c]
  {
  }

  lemma SettingsCell(row: Row, u: SettingsUpdate, c: Column)
    requires c in row
    ensures c in SettingsUpdated(row, u)
    ensures SettingsUpdated(row, u)[c] ==
            match c
            case DefaultDinners => OrElse(IntField(u.dinners), row[c])
            case DefaultDeliveryWeekday => OrElse(IntField(u.weekday), row[c])
            case DefaultOrderOffsetDays => OrElse(IntField(u.offset), row[c])
            case DefaultServings => OrElse(IntField(u.servings), row[c])
            case Language => OrElse(TextField(u.language), row[c])
            case LlmProvider => OrElse(TextField(u.provider), row[c])
            case NotesMd => OrElse(TextField(u.notes), row[c])
            case _ => row[c]
  {
    var r1 := row + Overwritten(DefaultDinners, IntField(u.dinners));
    var r2 := r1 + Overwritten(DefaultDeliveryWeekday, IntField(u.weekday));
    var r3 := r2 + Overwritten(DefaultOrderOffsetDays, IntField(u.offset));
    var r4 := r3 + Overwritten(DefaultServings, IntField(u.servings));
    var r5 := r4 + Overwritten(Language, TextField(u.language));
    var r6 := r5 + Overwritten(LlmProvider, TextField(u.provider));
    hide Overwritten, OrElse;
    CellAfter(row, c, DefaultDinners, IntField(u.dinners));
    CellAfter(r1, c, DefaultDeliveryWeekday, IntField(u.weekday));
    CellAfter(r2, c, DefaultOrderOffsetDays, IntField(u.offset));
    CellAfter(r3, c, DefaultServings, IntField(u.servings));
    CellAfter(r4, c, Language, TextField(u.language));
    CellAfter(r5, c, LlmProvider, TextField(u.provider));
    CellAfter(r6, c, NotesMd, TextField(u.notes));
  }

  /** On a stored row, an update is allowed exactly when the row it leaves meets the constraints. */
  lemma SettingsAllowedIff(row: Row, u: SettingsUpdate)
    requires IsSettingsRow(row)
    ensures IsSettingsRow(SettingsUpdated(row, u)) <==> SettingsAllowed(u)
  {
    hide SettingsUpdated;
    SettingsCell(row, u, DefaultDinners);
    SettingsCell(row, u, DefaultDeliveryWeekday);
    SettingsCell(row, u, DefaultOrderOffsetDays);
    SettingsCell(row, u, DefaultServings);
    SettingsCell(row, u, Language);
    SettingsCell(row, u, LlmProvider);
    SettingsCell(row, u, NotesMd);
  }

  /** The values that get through. */
  lemma SettingsAllowedAre(u: SettingsUpdate)
    ensures SettingsAllowed(u) <==>
              && (u.dinners.Some? ==> 1 <= u.dinners.value <= 14)
              && (u.weekday.Some? ==> 1 <= u.weekday.value <= 7)
              && (u.offset.Some? ==> -0x8000_0000 <= u.offset.value <= 0x7fff_ffff)
              && (u.servings.Some? ==> 1 <= u.servings.value <= 20)
              && (u.language.Some? ==> u.language.value in ["sv", "en"])
  {
  }

  function OrElse(v: Option<Arg>, was: Cell): Cell {
    if v.Some? then Stored(v.value) else was
  }

  /** Postgres running `UPDATE household_settings SET <sets> WHERE id = 1`; `None` is an SQL error. */
  function ExecSettings(pg: Postgres, row: Row, sets: seq<Assignment>, args: seq<Arg>): Option<Row> {
    match RunSets(pg, sets, args, row)
    case None => None
    case Some(r) => if IsSettingsRow(r) then Some(r) else None
  }

  /** The statement overwrites exactly the fields that are set, or fails and changes nothing: the
      callers check no field, the table's constraints do. */
  method UpdateHouseholdSettings(pg: Postgres, row: Row, u: SettingsUpdate) returns (r: Option<Row>)
    requires IsSettingsRow(row)
    ensures r == if SettingsAllowed(u) then Some(SettingsUpdated(row, u)) else None
  {
    var b := new Builder();
    assert b.Means([]);
    var ws := SettingsWishes(u);
    b.AddIf(DefaultDinners, IntField(u.dinners), ws[..0]);
    assert ws[..1] == ws[..0] + [ws[0]] && ws[..2] == ws[..1] + [ws[1]] && ws[..3] == ws[..2] + [ws[2]];
    assert ws[..4] == ws[..3] + [ws[3]] && ws[..5] == ws[..4] + [ws[4]] && ws[..6] == ws[..5] + [ws[5]];
    b.AddIf(DefaultDeliveryWeekday, IntField(u.weekday), ws[..1]);
    b.AddIf(DefaultOrderOffsetDays, IntField(u.offset), ws[..2]);
    b.AddIf(DefaultServings, IntField(u.servings), ws[..3]);
    b.AddIf(Language, TextField(u.language), ws[..4]);
    b.AddIf(LlmProvider, TextField(u.provider), ws[..5]);
    b.AddIf(NotesMd, TextField(u.notes), ws[..6]);
    assert ws == ws[..6] + [ws[6]];
    SettingsWishesUpdateRow(pg, row, u);
    SettingsAllowedIff(row, u);
    if b.sets == [] {
      return Some(row);
    }
    r := ExecSettings(pg, row, b.sets, b.args);
  }

  lemma SettingsWishesUpdateRow(pg: Postgres, row: Row, u: SettingsUpdate)
    ensures GrantAll(pg, SettingsWishes(u), row) == Some(SettingsUpdated(row, u))
  {
    var ws := SettingsWishes(u);
    SevenWishes(pg, ws, row);
    forall c: Column, v: Option<Arg>, r: Row
      ensures Grant(pg, FieldWish(c, v), Some(r)) == Some(r + Overwritten(c, v))
    {
      assert v.Some? ==> r[c := Stored(v.value)] == r + map[c := Stored(v.value)];
      assert v.None? ==> r + map[] == r;
    }
  }
}
