/** The week_dinners table: SQL's row_number() over the reading order, and the
    listing of a plan in that order. */
module Dinners {
  import opened Calendar
  import opened Seqs
  import opened Wrappers

  /** Everything a dinner row carries besides its plan and day. */
  datatype Slot = Slot(dish: Option<int>, servings: int, sourcing: string, notes: string, sortOrder: int)

  datatype Dinner = Dinner(week: int, day: Day, slot: Slot)

  /** The column defaults: what an inserted day with no dinner holds. */
  const EMPTY_SLOT := Slot(None, 4, "{}", "", 0)

  type Rows = map<int, Dinner>

  function PlanIds(ds: Rows, w: int): set<int> {
    set i | i in ds && ds[i].week == w
  }

  /** ORDER BY day_date, sort_order, id. */
  predicate Precedes(ds: Rows, i: int, j: int)
    requires i in ds && j in ds
  {
    var a, b := ds[i], ds[j];
    a.day < b.day
    || (a.day == b.day && (a.slot.sortOrder < b.slot.sortOrder || (a.slot.sortOrder == b.slot.sortOrder && i < j)))
  }

  /** row_number() - 1 of a row among the rows of its plan. */
  function Rank(ds: Rows, i: int): nat
    requires i in ds
  {
    |set j | j in ds && ds[j].week == ds[i].week && Precedes(ds, j, i)|
  }

  /** `q` lists the rows of plan `w` in reading order. */
  ghost predicate IsMenu(ds: Rows, w: int, q: seq<int>) {
    Ordered(ds, q)
    && (forall k | 0 <= k < |q| :: ds[q[k]].week == w)
    && forall i | i in ds && ds[i].week == w :: i in q
  }

  ghost predicate Ordered(ds: Rows, q: seq<int>) {
    (forall k | 0 <= k < |q| :: q[k] in ds)
    && forall a, b | 0 <= a < b < |q| :: Precedes(ds, q[a], q[b])
  }

  ghost predicate IsFirst(ds: Rows, s: set<int>, m: int)
    requires s <= ds.Keys
  {
    m in s && forall j | j in s && j != m :: Precedes(ds, m, j)
  }

  lemma NonEmpty(s: set<int>)
    ensures s == {} || exists i :: i in s
  {
    if !exists i :: i in s { assert s == {}; }
  }

  lemma {:induction false} HasFirst(ds: Rows, s: set<int>)
    requires s != {} && s <= ds.Keys
    ensures exists m :: IsFirst(ds, s, m)
    decreases |s|
  {
    NonEmpty(s);
    var m :| m in s;
    if s == {m} {
      assert IsFirst(ds, s, m);
    } else {
      HasFirst(ds, s - {m});
      var k :| IsFirst(ds, s - {m}, k);
      forall j | j in s && j != m ensures j == k || Precedes(ds, k, j) { assert j in s - {m}; }
      if Precedes(ds, m, k) { assert IsFirst(ds, s, m); } else { assert IsFirst(ds, s, k); }
    }
  }

  ghost function Listed(ds: Rows, s: set<int>): seq<int>
    requires s <= ds.Keys
    decreases |s|
  {
    if s == {} then []
    else
      HasFirst(ds, s);
      var m :| IsFirst(ds, s, m);
      [m] + Listed(ds, s - {m})
  }

  lemma FirstThenOrdered(ds: Rows, s: set<int>, m: int, rest: seq<int>)
    requires s <= ds.Keys && IsFirst(ds, s, m) && Ordered(ds, rest)
    requires forall k | 0 <= k < |rest| :: rest[k] in s && rest[k] != m
    ensures Ordered(ds, [m] + rest)
  {
    var q := [m] + rest;
    forall a, b | 0 <= a < b < |q| ensures q[a] in ds && q[b] in ds && Precedes(ds, q[a], q[b]) {
      assert q[b] == rest[b - 1];
      if a > 0 { assert q[a] == rest[a - 1]; }
    }
  }

  lemma {:induction false} ListedInOrder(ds: Rows, s: set<int>)
    requires s <= ds.Keys
    ensures Ordered(ds, Listed(ds, s))
    ensures forall k | 0 <= k < |Listed(ds, s)| :: Listed(ds, s)[k] in s
    ensures forall i | i in s :: i in Listed(ds, s)
    decreases |s|
  {
    if s != {} {
      HasFirst(ds, s);
      var m :| IsFirst(ds, s, m) && Listed(ds, s) == [m] + Listed(ds, s - {m});
      ListedInOrder(ds, s - {m});
      FirstThenOrdered(ds, s, m, Listed(ds, s - {m}));
      forall i | i in s ensures i in Listed(ds, s) {
        if i != m { assert i in s - {m}; }
      }
    }
  }

  /** The listing of a plan in reading order. */
  ghost function Menu(ds: Rows, w: int): seq<int> {
    Listed(ds, PlanIds(ds, w))
  }

  lemma MenuListed(ds: Rows, w: int)
    ensures IsMenu(ds, w, Menu(ds, w))
  {
    ListedInOrder(ds, PlanIds(ds, w));
    forall i | i in ds && ds[i].week == w ensures i in Menu(ds, w) { assert i in PlanIds(ds, w); }
  }

  lemma SameHead(ds: Rows, p: seq<int>, q: seq<int>)
    requires Ordered(ds, p) && Ordered(ds, q) && p != [] && q != []
    requires p[0] in q && q[0] in p
    ensures p[0] == q[0]
  {
    var a :| 0 <= a < |q| && q[a] == p[0];
    var b :| 0 <= b < |p| && p[b] == q[0];
    if a > 0 { assert Precedes(ds, q[0], q[a]); }
    if b > 0 { assert Precedes(ds, p[0], p[b]); }
  }

  lemma TailInTail(ds: Rows, p: seq<int>, q: seq<int>)
    requires Ordered(ds, p) && p != [] && q != [] && p[0] == q[0]
    requires forall k | 0 <= k < |p| :: p[k] in q
    ensures Ordered(ds, p[1..]) && forall k | 0 <= k < |p[1..]| :: p[1..][k] in q[1..]
  {
    forall k | 0 <= k < |p[1..]| ensures p[1..][k] in q[1..] {
      assert Precedes(ds, p[0], p[k + 1]);
      var c :| 0 <= c < |q| && q[c] == p[k + 1];
      assert q[1..][c - 1] == p[k + 1];
    }
  }

  lemma {:induction false} SameListing(ds: Rows, p: seq<int>, q: seq<int>)
    requires Ordered(ds, p) && Ordered(ds, q)
    requires forall k | 0 <= k < |p| :: p[k] in q
    requires forall k | 0 <= k < |q| :: q[k] in p
    ensures p == q
    decreases |p|
  {
    assert p != [] ==> p[0] in q;
    assert q != [] ==> q[0] in p;
    if p != [] {
      SameHead(ds, p, q);
      TailInTail(ds, p, q);
      TailInTail(ds, q, p);
      SameListing(ds, p[1..], q[1..]);
      SameParts(p, q);
    }
  }

  /** There is only one listing of a plan. */
  lemma MenuUnique(ds: Rows, w: int, q: seq<int>)
    requires IsMenu(ds, w, q)
    ensures q == Menu(ds, w)
  {
    MenuListed(ds, w);
    SameListing(ds, q, Menu(ds, w));
  }

  lemma {:induction false} ElementsOf(q: seq<int>)
    requires forall a, b | 0 <= a < b < |q| :: q[a] != q[b]
    ensures |set i | i in q| == |q|
    decreases |q|
  {
    if q != [] {
      var init, last := q[..|q| - 1], q[|q| - 1];
      ElementsOf(init);
      assert q == init + [last];
      assert (set i | i in q) == (set i | i in init) + {last};
    }
  }

  lemma EarlierPlace(ds: Rows, q: seq<int>, a: int, k: int)
    requires Ordered(ds, q) && 0 <= a < |q| && 0 <= k < |q| && Precedes(ds, q[a], q[k])
    ensures a < k
  {
  }

  /** The row_number() of a row is its place in the listing. */
  lemma RankIsPlace(ds: Rows, w: int, q: seq<int>, k: int)
    requires IsMenu(ds, w, q) && 0 <= k < |q|
    ensures q[k] in ds && Rank(ds, q[k]) == k
  {
    var x := q[k];
    var before := set j | j in ds && ds[j].week == ds[x].week && Precedes(ds, j, x);
    var head := q[..k];
    forall j | j in before ensures j in head {
      var a :| 0 <= a < |q| && q[a] == j;
      EarlierPlace(ds, q, a, k);
      assert head[a] == j;
    }
    forall j | j in head ensures j in before {
      var a :| 0 <= a < k && head[a] == j;
      assert Precedes(ds, q[a], q[k]);
    }
    assert before == set i | i in head;
    ElementsOf(head);
  }

  /** A listing survives any change to rows that keeps the plan's ids and their order. */
  lemma MenuKept(ds: Rows, es: Rows, w: int)
    requires PlanIds(ds, w) == PlanIds(es, w)
    requires forall i, j | i in PlanIds(ds, w) && j in PlanIds(ds, w) && Precedes(ds, i, j) :: Precedes(es, i, j)
    ensures Menu(es, w) == Menu(ds, w)
  {
    var q := Menu(ds, w);
    MenuListed(ds, w);
    forall k | 0 <= k < |q| ensures q[k] in es && es[q[k]].week == w && q[k] in PlanIds(ds, w) {
      var x := q[k];
      assert x in PlanIds(ds, w);
      assert x in PlanIds(es, w);
    }
    forall i | i in es && es[i].week == w ensures i in q {
      assert i in PlanIds(es, w);
      assert i in PlanIds(ds, w);
    }
    MenuUnique(es, w, q);
  }

  /** The reading order: by day, then by sort order, then by id; each row of the plan once, no other. */
  lemma MenuInOrder(ds: Rows, w: int)
    ensures var q := Menu(ds, w);
            && (forall i :: i in q <==> i in ds && ds[i].week == w)
            && forall a, b | 0 <= a < b < |q| ::
                 && q[a] in ds && q[b] in ds
                 && var x, y := ds[q[a]], ds[q[b]];
                    && x.day <= y.day && (x.day == y.day ==> x.slot.sortOrder <= y.slot.sortOrder)
                    && (x.day == y.day && x.slot.sortOrder == y.slot.sortOrder ==> q[a] < q[b])
  {
    MenuListed(ds, w);
    var q := Menu(ds, w);
    forall i ensures i in q <==> i in ds && ds[i].week == w {
      if i in q { var k :| 0 <= k < |q| && q[k] == i; }
    }
    forall a, b | 0 <= a < b < |q| ensures q[a] in ds && q[b] in ds && Precedes(ds, q[a], q[b]) { }
  }

  /** The ids of a plan are listed without repetition. */
  lemma MenuSize(ds: Rows, w: int)
    ensures |Menu(ds, w)| == |PlanIds(ds, w)|
  {
    var q := Menu(ds, w);
    MenuListed(ds, w);
    ElementsOf(q);
    var s := set i | i in q;
    forall i | i in s ensures i in PlanIds(ds, w) { var k :| 0 <= k < |q| && q[k] == i; }
    forall i | i in PlanIds(ds, w) ensures i in s { assert i in q; }
    assert s == PlanIds(ds, w);
  }
}
