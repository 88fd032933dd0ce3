/** The agent's write tools over the plan tables, behind the plan-scope and draft guards. */
module PlanTools {
  import opened Wrappers
  import opened Calendar
  import opened SqlUpdate
  import opened Dinners

  datatype Dish = Dish(name: string, cuisine: Option<string>, recipe: string, servings: int, tags: seq<string>,
      lastMade: Day)
  datatype Exception = Exception(week: int, kind: string, description: string)
  datatype Retrospective = Retrospective(week: int, notes: string)
  datatype Rating = Rating(rating: string, notes: string)
  datatype CartItem = CartItem(week: int, code: string, qty: int, reason: string, snapshot: string)

  /** The tables. Ratings are keyed by their dinner, which is unique; `next` is above every id. */
  datatype Db = Db(
    weeks: map<int, Week>, dinners: Rows, dishes: map<int, Dish>, exceptions: map<int, Exception>,
    retros: map<int, Retrospective>, ratings: map<int, Rating>, cart: map<int, CartItem>, next: int)

  predicate IdsBelow<V>(m: map<int, V>, next: int) {
    forall i | i in m :: i < next
  }

  predicate StatusesKnown(weeks: map<int, Week>) {
    forall i | i in weeks :: KnownStatus(weeks[i].status)
  }

  predicate Valid(db: Db) {
    && StatusesKnown(db.weeks) && IdsBelow(db.weeks, db.next) && IdsBelow(db.dinners, db.next)
    && IdsBelow(db.dishes, db.next) && IdsBelow(db.exceptions, db.next) && IdsBelow(db.retros, db.next)
    && IdsBelow(db.cart, db.next) && db.ratings.Keys <= db.dinners.Keys
  }

  // ---- guards ---------------------------------------------------------------

  /** WithWeekID and WeekIDFrom: the plan a chat is bound to, 0 when none is. */
  function BoundPlan(weekID: Option<int>): int {
    if weekID.Some? && weekID.value > 0 then weekID.value else 0
  }

  function ResolvePlan(bound: int, provided: int): Option<int> {
    if bound > 0 then (if provided > 0 && provided != bound then None else Some(bound))
    else if provided > 0 then Some(provided) else None
  }

  predicate DinnerInScope(db: Db, bound: int, dinner: int) {
    bound == 0 || (dinner in db.dinners && db.dinners[dinner].week == bound)
  }

  predicate Editable(db: Db, week: int) {
    week in db.weeks && db.weeks[week].status == "draft"
  }

  predicate DinnerEditable(db: Db, bound: int, dinner: int) {
    DinnerInScope(db, bound, dinner) && dinner in db.dinners && Editable(db, db.dinners[dinner].week)
  }

  predicate ExceptionEditable(db: Db, bound: int, exception: int) {
    exception in db.exceptions && (bound == 0 || db.exceptions[exception].week == bound)
    && Editable(db, db.exceptions[exception].week)
  }

  // ---- tool calls -----------------------------------------------------------

  datatype RatingInput = RatingInput(dinner: int, rating: string, notes: string)

  /** One item for the cart and whether the shop took it. */
  datatype Item = Item(code: string, qty: int, reason: string, taken: bool)

  /** A tool call as decoded, with the answers of the world outside the tables: the plan an iso_week
      lookup found, whether the shop accepted, and the snapshot of a product in its cart. */
  datatype ToolCall =
    | Malformed
    | OtherTool(fails: bool)
    | CreateWeek(iso: string, start: string, end: string, delivery: string, order: string, notes: string)
    | UpdatePlan(week: int, iso: string, found: Option<int>, update: WeekUpdate)
    | AddDinner(week: int, day: string, name: string, cuisine: string, recipe: string, servings: int,
                sourcing: string, notes: string, tags: seq<string>)
    | UpdateDinner(dinner: int, name: string, cuisine: string, recipe: string, servings: int,
                   sourcing: string, notes: string)
    | DeleteDinner(dinner: int)
    | AddException(week: int, kind: string, description: string)
    | UpdateException(exception: int, newKind: Option<string>, newDescription: Option<string>)
    | DeleteException(exception: int)
    | RecordRetrospective(week: int, notes: string, ratings: seq<RatingInput>)
    | CartAdd(item: Item, snapshot: string)
    | CartAddMany(items: seq<Item>, cartRead: bool, snapshots: string -> string)
    | CartRemove(code: string, taken: bool)
    | CartClear(taken: bool)

  function Default(v: int, default: int): int {
    if v == 0 then default else v
  }

  function NullIfEmpty(s: string): Option<string> {
    if s == "" then None else Some(s)
  }

  function Sourcing(s: string): string {
    if s == "" then "{}" else s
  }

  // ---- outcomes -------------------------------------------------------------

  function Created(pg: Postgres, db: Db, c: ToolCall): (Db, bool)
    requires c.CreateWeek?
  {
    var d, o := DateChange(pg, Some(c.delivery)), DateChange(pg, Some(c.order));
    match (pg.castDate(c.start), pg.castDate(c.end))
    case (Some(s), Some(e)) =>
      if d.Bad? || o.Bad? then (db, false)
      else (db.(weeks := db.weeks[db.next := Week(c.iso, s, e, Nullable(d, None), Nullable(o, None), "draft", c.notes)],
                next := db.next + 1), true)
    case _ => (db, false)
  }

  function Replanned(pg: Postgres, db: Db, bound: int, c: ToolCall): (Db, bool)
    requires c.UpdatePlan?
  {
    if c.week == 0 && c.iso != "" && c.found.None? then (db, true)
    else
      match ResolvePlan(bound, if c.week == 0 && c.iso != "" then c.found.value else c.week)
      case None => (db, false)
      case Some(id) =>
        match WeekUpdated(pg, db.weeks, id, c.update)
        case None => (db, false)
        case Some((weeks, _)) => (db.(weeks := weeks), true)
  }

  function DinnerAdded(pg: Postgres, db: Db, bound: int, c: ToolCall): (Db, bool)
    requires c.AddDinner?
  {
    match ResolvePlan(bound, c.week)
    case None => (db, false)
    case Some(week) =>
      if !Editable(db, week) || pg.castDate(c.day).None? || !FitsInt(c.servings) then (db, false)
      else
        var day, servings := pg.castDate(c.day).value, Default(c.servings, 4);
        var dish := Dish(c.name, NullIfEmpty(c.cuisine), c.recipe, servings, c.tags, day);
        var dinner := Dinner(week, day, Slot(Some(db.next), servings, Sourcing(c.sourcing), c.notes, 0));
        var dishes, dinners := db.dishes[db.next := dish], db.dinners[db.next + 1 := dinner];
        (db.(dishes := dishes, dinners := dinners, next := db.next + 2), true)
  }

  function DinnerUpdated(db: Db, bound: int, c: ToolCall): (Db, bool)
    requires c.UpdateDinner?
  {
    if !DinnerEditable(db, bound, c.dinner) || !FitsInt(c.servings) then (db, false)
    else
      var row, servings := db.dinners[c.dinner], Default(c.servings, 4);
      var dish := Dish(c.name, NullIfEmpty(c.cuisine), c.recipe, servings, [], row.day);
      var slot := Slot(Some(db.next), servings, Sourcing(c.sourcing), c.notes, row.slot.sortOrder);
      var dishes, dinners := db.dishes[db.next := dish], db.dinners[c.dinner := row.(slot := slot)];
      (db.(dishes := dishes, dinners := dinners, next := db.next + 1), true)
  }

  /** Deleting a dinner cascades to its rating. */
  function DinnerDeleted(db: Db, bound: int, dinner: int): (Db, bool) {
    if !DinnerEditable(db, bound, dinner) then (db, false)
    else (db.(dinners := db.dinners - {dinner}, ratings := db.ratings - {dinner}), true)
  }

  function ExceptionAdded(db: Db, bound: int, c: ToolCall): (Db, bool)
    requires c.AddException?
  {
    match ResolvePlan(bound, c.week)
    case None => (db, false)
    case Some(week) =>
      if !Editable(db, week) then (db, false)
      else
        var exceptions := db.exceptions[db.next := Exception(week, c.kind, c.description)];
        (db.(exceptions := exceptions, next := db.next + 1), true)
  }

  function ExceptionUpdated(db: Db, bound: int, c: ToolCall): (Db, bool)
    requires c.UpdateException?
  {
    if (c.newKind.None? && c.newDescription.None?) || !ExceptionEditable(db, bound, c.exception) then (db, false)
    else
      var row := db.exceptions[c.exception];
      (db.(exceptions := db.exceptions[c.exception :=
         Exception(row.week, Or(c.newKind, row.kind), Or(c.newDescription, row.description))]), true)
  }

  function ExceptionDeleted(db: Db, bound: int, exception: int): (Db, bool) {
    if !ExceptionEditable(db, bound, exception) then (db, false)
    else (db.(exceptions := db.exceptions - {exception}), true)
  }

  predicate KnownRating(r: string) {
    r in {"loved", "liked", "meh", "disliked"}
  }

  predicate Ratable(db: Db, week: int, r: RatingInput) {
    r.dinner in db.dinners && db.dinners[r.dinner].week == week && KnownRating(r.rating)
  }

  function Rated(ratings: map<int, Rating>, rs: seq<RatingInput>): map<int, Rating> {
    if rs == [] then ratings
    else
      var r := rs[|rs| - 1];
      Rated(ratings, rs[..|rs| - 1])[r.dinner := Rating(r.rating, r.notes)]
  }

  /** One transaction: the note and every rating, or nothing. */
  function Recorded(db: Db, bound: int, c: ToolCall): (Db, bool)
    requires c.RecordRetrospective?
  {
    match ResolvePlan(bound, c.week)
    case None => (db, false)
    case Some(week) =>
      if week !in db.weeks || exists k | 0 <= k < |c.ratings| :: !Ratable(db, week, c.ratings[k]) then (db, false)
      else (db.(retros := db.retros[db.next := Retrospective(week, c.notes)], ratings := Rated(db.ratings, c.ratings),
                next := db.next + 1), true)
  }

  function Quantity(qty: int): int {
    if qty <= 0 then 1 else qty
  }

  /** The NUMERIC(10, 3) column holds whole numbers below ten million. */
  predicate FitsQuantity(qty: int) {
    Quantity(qty) < 10_000_000
  }

  /** The insert into the week's shopping list; without the plan the foreign key refuses it, as its
      type does a quantity too large, and either is only logged. */
  function ItemListed(db: Db, bound: int, item: Item, snapshot: string): Db {
    if bound <= 0 || bound !in db.weeks || !FitsQuantity(item.qty) then db
    else db.(cart := db.cart[db.next := CartItem(bound, item.code, Quantity(item.qty), item.reason, snapshot)],
             next := db.next + 1)
  }

  function ItemsListed(db: Db, bound: int, items: seq<Item>, snapshot: string -> string): Db {
    if items == [] then db
    else
      var i := items[|items| - 1];
      var rest := ItemsListed(db, bound, items[..|items| - 1], snapshot);
      if i.taken then ItemListed(rest, bound, i, snapshot(i.code)) else rest
  }

  function Unlisted(db: Db, bound: int, code: Option<string>): Db {
    if bound <= 0 then db
    else db.(cart := map i | i in db.cart
                         && !(db.cart[i].week == bound && (code.None? || db.cart[i].code == code.value))
                       :: db.cart[i])
  }

  /** What a tool call does to the tables, and whether it succeeds. */
  function Step(pg: Postgres, db: Db, bound: int, c: ToolCall): (Db, bool) {
    match c
    case Malformed => (db, false)
    case OtherTool(fails) => (db, !fails)
    case CreateWeek(_, _, _, _, _, _) => Created(pg, db, c)
    case UpdatePlan(_, _, _, _) => Replanned(pg, db, bound, c)
    case AddDinner(_, _, _, _, _, _, _, _, _) => DinnerAdded(pg, db, bound, c)
    case UpdateDinner(_, _, _, _, _, _, _) => DinnerUpdated(db, bound, c)
    case DeleteDinner(d) => DinnerDeleted(db, bound, d)
    case AddException(_, _, _) => ExceptionAdded(db, bound, c)
    case UpdateException(_, _, _) => ExceptionUpdated(db, bound, c)
    case DeleteException(e) => ExceptionDeleted(db, bound, e)
    case RecordRetrospective(_, _, _) => Recorded(db, bound, c)
    case CartAdd(item, snapshot) => if item.taken then (ItemListed(db, bound, item, snapshot), true) else (db, false)
    case CartAddMany(items, read, snapshot) =>
      if read then (ItemsListed(db, bound, items, snapshot), true) else (db, false)
    case CartRemove(code, taken) => if taken then (Unlisted(db, bound, Some(code)), true) else (db, false)
    case CartClear(taken) => if taken then (Unlisted(db, bound, None), true) else (db, false)
  }

  lemma {:induction false} NothingListed(db: Db, bound: int, items: seq<Item>, snapshot: string -> string)
    requires bound <= 0 || bound !in db.weeks
    ensures ItemsListed(db, bound, items, snapshot) == db
    decreases |items|
  {
    if items != [] { NothingListed(db, bound, items[..|items| - 1], snapshot); }
  }
}
