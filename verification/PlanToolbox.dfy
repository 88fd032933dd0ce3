/** The write tools of one chat as methods over the shared tables. */
module PlanToolbox {
  import opened Wrappers
  import opened Calendar
  import opened Dinners
  import opened SqlUpdate
  import opened PlanTools
  import opened PlanToolTheorems

  // ---- the handlers ---------------------------------------------------------

  /** A chat's tools over the shared tables. */
  class Toolbox {
    const pg: Postgres
    const bound: int
    var weeks: map<int, Week>
    var dinners: Rows
    var dishes: map<int, Dish>
    var exceptions: map<int, Exception>
    var retros: map<int, Retrospective>
    var ratings: map<int, Rating>
    var cart: map<int, CartItem>
    var next: int

    constructor (pg: Postgres, weekID: Option<int>, db: Db)
      ensures this.pg == pg && bound == BoundPlan(weekID) && State() == db
    {
      this.pg, bound := pg, BoundPlan(weekID);
      weeks, dinners, dishes, exceptions := db.weeks, db.dinners, db.dishes, db.exceptions;
      retros, ratings, cart, next := db.retros, db.ratings, db.cart, db.next;
    }

    function State(): Db
      reads this
    {
      Db(weeks, dinners, dishes, exceptions, retros, ratings, cart, next)
    }

    method CallCreateWeek(c: ToolCall) returns (ok: bool)
      requires c.CreateWeek?
      modifies this`weeks, this`next
      ensures (State(), ok) == Step(pg, old(State()), bound, c)
    {
      var s, e := pg.castDate(c.start), pg.castDate(c.end);
      var delivery, order := DateChange(pg, Some(c.delivery)), DateChange(pg, Some(c.order));
      if s.None? || e.None? || delivery.Bad? || order.Bad? {
        return false;
      }
      weeks := weeks[next :=
        Week(c.iso, s.value, e.value, Nullable(delivery, None), Nullable(order, None), "draft", c.notes)];
      next := next + 1;
      ok := true;
    }

    method CallUpdatePlan(c: ToolCall) returns (ok: bool)
      requires c.UpdatePlan? && Valid(State())
      modifies this`weeks
      ensures (State(), ok) == Step(pg, old(State()), bound, c)
    {
      var id := c.week;
      if id == 0 && c.iso != "" {
        if c.found.None? {
          return true;
        }
        id := c.found.value;
      }
      var resolved := ResolvePlan(bound, id);
      if resolved.None? {
        return false;
      }
      var r := UpdateWeek(pg, weeks, resolved.value, c.update);
      if r.None? {
        return false;
      }
      weeks := r.value.0;
      ok := true;
    }

    method CallAddDinner(c: ToolCall) returns (ok: bool)
      requires c.AddDinner?
      modifies this`dishes, this`dinners, this`next
      ensures (State(), ok) == Step(pg, old(State()), bound, c)
    {
      var week := ResolvePlan(bound, c.week);
      if week.None? || !Editable(State(), week.value) {
        return false;
      }
      var servings := Default(c.servings, 4);
      var day := pg.castDate(c.day);
      if day.None? || !FitsInt(servings) {
        return false;
      }
      var dishID := next;
      var dish := Dish(c.name, NullIfEmpty(c.cuisine), c.recipe, servings, c.tags, day.value);
      var slot := Slot(Some(dishID), servings, Sourcing(c.sourcing), c.notes, 0);
      dishes := dishes[dishID := dish];
      dinners := dinners[dishID + 1 := Dinner(week.value, day.value, slot)];
      next := next + 2;
      ok := true;
    }

    method CallUpdateDinner(c: ToolCall) returns (ok: bool)
      requires c.UpdateDinner?
      modifies this`dishes, this`dinners, this`next
      ensures (State(), ok) == Step(pg, old(State()), bound, c)
    {
      if !DinnerEditable(State(), bound, c.dinner) || !FitsInt(c.servings) {
        return false;
      }
      var row, servings, dishID := dinners[c.dinner], Default(c.servings, 4), next;
      dishes := dishes[dishID := Dish(c.name, NullIfEmpty(c.cuisine), c.recipe, servings, [], row.day)];
      var slot := Slot(Some(dishID), servings, Sourcing(c.sourcing), c.notes, row.slot.sortOrder);
      dinners := dinners[c.dinner := row.(slot := slot)];
      next := next + 1;
      ok := true;
    }

    method CallDeleteDinner(dinner: int) returns (ok: bool)
      modifies this`dinners, this`ratings
      ensures (State(), ok) == Step(pg, old(State()), bound, DeleteDinner(dinner))
    {
      if !DinnerEditable(State(), bound, dinner) {
        return false;
      }
      dinners, ratings := dinners - {dinner}, ratings - {dinner};
      ok := true;
    }

    method CallAddException(c: ToolCall) returns (ok: bool)
      requires c.AddException?
      modifies this`exceptions, this`next
      ensures (State(), ok) == Step(pg, old(State()), bound, c)
    {
      var week := ResolvePlan(bound, c.week);
      if week.None? || !Editable(State(), week.value) {
        return false;
      }
      exceptions, next := exceptions[next := Exception(week.value, c.kind, c.description)], next + 1;
      ok := true;
    }

    method CallUpdateException(c: ToolCall) returns (ok: bool)
      requires c.UpdateException?
      modifies this`exceptions
      ensures (State(), ok) == Step(pg, old(State()), bound, c)
    {
      if c.newKind.None? && c.newDescription.None? {
        return false;
      }
      if !ExceptionEditable(State(), bound, c.exception) {
        return false;
      }
      var row := exceptions[c.exception];
      exceptions := exceptions[c.exception :=
        Exception(row.week, Or(c.newKind, row.kind), Or(c.newDescription, row.description))];
      ok := true;
    }

    method CallDeleteException(exception: int) returns (ok: bool)
      modifies this`exceptions
      ensures (State(), ok) == Step(pg, old(State()), bound, DeleteException(exception))
    {
      if !ExceptionEditable(State(), bound, exception) {
        return false;
      }
      exceptions := exceptions - {exception};
      ok := true;
    }

    method CallCartAdd(item: Item, snapshot: string) returns (ok: bool)
      modifies this`cart, this`next
      ensures (State(), ok) == Step(pg, old(State()), bound, CartAdd(item, snapshot))
    {
      if !item.taken {
        return false;
      }
      if bound > 0 && bound in weeks && FitsQuantity(item.qty) {
        cart := cart[next := CartItem(bound, item.code, Quantity(item.qty), item.reason, snapshot)];
        next := next + 1;
      }
      ok := true;
    }

    method CallCartRemove(code: string, taken: bool) returns (ok: bool)
      modifies this`cart
      ensures (State(), ok) == Step(pg, old(State()), bound, CartRemove(code, taken))
    {
      if taken && bound > 0 {
        cart := map i | i in cart && !(cart[i].week == bound && cart[i].code == code) :: cart[i];
        assert State().cart == Unlisted(old(State()), bound, Some(code)).cart;
      }
      ok := taken;
    }

    method CallCartClear(taken: bool) returns (ok: bool)
      modifies this`cart
      ensures (State(), ok) == Step(pg, old(State()), bound, CartClear(taken))
    {
      if taken && bound > 0 {
        cart := map i | i in cart && cart[i].week != bound :: cart[i];
        assert State().cart == Unlisted(old(State()), bound, None).cart;
      }
      ok := taken;
    }

    method CallRecordRetrospective(c: ToolCall) returns (ok: bool)
      requires c.RecordRetrospective?
      modifies this`retros, this`ratings, this`next
      ensures (State(), ok) == Step(pg, old(State()), bound, c)
    {
      var week := ResolvePlan(bound, c.week);
      if week.None? || week.value !in weeks {
        return false;
      }
      // Begin.
      var txRatings := ratings;
      for k := 0 to |c.ratings|
        invariant unchanged(this)
        invariant forall j | 0 <= j < k :: Ratable(State(), week.value, c.ratings[j])
        invariant txRatings == Rated(ratings, c.ratings[..k])
      {
        var r := c.ratings[k];
        assert c.ratings[..k + 1][..k] == c.ratings[..k];
        if r.dinner !in dinners || dinners[r.dinner].week != week.value || !KnownRating(r.rating) {
          assert !Ratable(State(), week.value, c.ratings[k]);
          return false;
        }
        txRatings := txRatings[r.dinner := Rating(r.rating, r.notes)];
      }
      assert c.ratings[..|c.ratings|] == c.ratings;
      // Commit.
      retros, ratings, next := retros[next := Retrospective(week.value, c.notes)], txRatings, next + 1;
      ok := true;
    }

    method CallCartAddMany(c: ToolCall) returns (ok: bool)
      requires c.CartAddMany?
      modifies this`cart, this`next
      ensures (State(), ok) == Step(pg, old(State()), bound, c)
    {
      var toRecord: seq<Item> := [];
      for k := 0 to |c.items|
        invariant toRecord == Taken(c.items[..k])
      {
        assert c.items[..k + 1][..k] == c.items[..k];
        if c.items[k].taken {
          toRecord := toRecord + [c.items[k]];
        }
      }
      assert c.items[..|c.items|] == c.items;
      if !c.cartRead {
        return false;
      }
      if bound > 0 && bound in weeks {
        for k := 0 to |toRecord|
          invariant State() == ItemsListed(old(State()), bound, toRecord[..k], c.snapshots)
        {
          assert toRecord[..k + 1][..k] == toRecord[..k];
          AllTaken(c.items, k);
          var r := toRecord[k];
          if FitsQuantity(r.qty) {
            cart := cart[next := CartItem(bound, r.code, Quantity(r.qty), r.reason, c.snapshots(r.code))];
            next := next + 1;
          }
        }
        assert toRecord[..|toRecord|] == toRecord;
      } else {
        NothingListed(State(), bound, toRecord, c.snapshots);
      }
      ListedTaken(old(State()), bound, c.items, c.snapshots);
      ok := true;
    }

    /** One tool call of the chat: the step's new state and success; a failed call changes nothing,
        and in a bound chat what has to stay stays. */
    method Call(c: ToolCall) returns (ok: bool)
      requires Valid(State())
      modifies this
      ensures (State(), ok) == Step(pg, old(State()), bound, c) && Valid(State())
      ensures !ok ==> State() == old(State())
      ensures bound > 0 ==> Kept(old(State()), State(), bound)
    {
      ghost var before := State();
      match c {
        case Malformed => ok := false;
        case OtherTool(fails) => ok := !fails;
        case CreateWeek(_, _, _, _, _, _) => ok := CallCreateWeek(c);
        case UpdatePlan(_, _, _, _) => ok := CallUpdatePlan(c);
        case AddDinner(_, _, _, _, _, _, _, _, _) => ok := CallAddDinner(c);
        case UpdateDinner(_, _, _, _, _, _, _) => ok := CallUpdateDinner(c);
        case DeleteDinner(d) => ok := CallDeleteDinner(d);
        case AddException(_, _, _) => ok := CallAddException(c);
        case UpdateException(_, _, _) => ok := CallUpdateException(c);
        case DeleteException(e) => ok := CallDeleteException(e);
        case RecordRetrospective(_, _, _) => ok := CallRecordRetrospective(c);
        case CartAdd(item, snapshot) => ok := CallCartAdd(item, snapshot);
        case CartAddMany(_, _, _) => ok := CallCartAddMany(c);
        case CartRemove(code, taken) => ok := CallCartRemove(code, taken);
        case CartClear(taken) => ok := CallCartClear(taken);
      }
      CallInOrder(pg, before, bound, c);
    }

    /** The tool calls of a chat, one after the other. */
    method CallEach(cs: seq<ToolCall>)
      requires Valid(State())
      modifies this
      ensures State() == Run(pg, old(State()), bound, cs)
      ensures bound > 0 ==> OutsideSame(old(State()), State(), bound)
    {
      for k := 0 to |cs|
        invariant Valid(State()) && State() == Run(pg, old(State()), bound, cs[..k])
      {
        var _ := Call(cs[k]);
        RunOneMore(pg, old(State()), bound, cs, k);
      }
      assert cs[..|cs|] == cs;
      if bound > 0 { RunStaysInPlan(pg, old(State()), bound, cs); }
    }
  }

  function Taken(items: seq<Item>): seq<Item> {
    if items == [] then []
    else Taken(items[..|items| - 1]) + if items[|items| - 1].taken then [items[|items| - 1]] else []
  }

  lemma {:induction false} AllTaken(items: seq<Item>, k: int)
    requires 0 <= k < |Taken(items)|
    ensures Taken(items)[k].taken
    decreases |items|
  {
    if k < |Taken(items[..|items| - 1])| { AllTaken(items[..|items| - 1], k); }
  }

  lemma {:induction false} ListedTaken(db: Db, bound: int, items: seq<Item>, snapshot: string -> string)
    ensures ItemsListed(db, bound, Taken(items), snapshot) == ItemsListed(db, bound, items, snapshot)
    decreases |items|
  {
    if items != [] {
      var init, last := items[..|items| - 1], items[|items| - 1];
      ListedTaken(db, bound, init, snapshot);
      if last.taken {
        assert Taken(items)[..|Taken(items)| - 1] == Taken(init);
      } else {
        assert Taken(items) == Taken(init);
      }
    }
  }
}
