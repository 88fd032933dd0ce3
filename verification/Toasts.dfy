/** The toast queue: at most three on screen, errors evicted last. */
module Toasts {
  import opened Decimals
  import opened Seqs
  import opened Wrappers

  datatype Variant = Success | Error | Info

  datatype Toast = Toast(id: string, variant: Variant, message: string, action: Option<string>, duration: nat)

  /** The options of a call: an action, a duration in place of the default, an id to update in place. */
  datatype Options = Options(action: Option<string>, duration: Option<nat>, id: Option<string>)

  const MAX_VISIBLE := 3

  function DefaultDuration(v: Variant): nat {
    if v.Error? then 0 else 3000
  }

  function Errors(q: seq<Toast>): nat {
    if q == [] then 0 else (if q[0].variant.Error? then 1 else 0) + Errors(q[1..])
  }

  function Others(q: seq<Toast>): nat {
    if q == [] then 0 else (if q[0].variant.Error? then 0 else 1) + Others(q[1..])
  }

  // ---- which toasts stay ------------------------------------------------------------

  /** What decides about the toast at `i`: an error stays unless three newer errors are queued, any
      other stays when all errors and the newer others leave it a place. */
  predicate Stays(q: seq<Toast>, i: nat)
    requires i < |q|
  {
    if q[i].variant.Error? then Errors(q[i + 1..]) < MAX_VISIBLE
    else Errors(q) + Others(q[i + 1..]) < MAX_VISIBLE
  }

  /** Those that stay, in their order, from `i` on. */
  function Staying(q: seq<Toast>, i: nat): seq<Toast>
    requires i <= |q|
    decreases |q| - i
  {
    if i == |q| then [] else (if Stays(q, i) then [q[i]] else []) + Staying(q, i + 1)
  }

  function OnlyErrors(q: seq<Toast>): seq<Toast> {
    if q == [] then [] else (if q[0].variant.Error? then [q[0]] else []) + OnlyErrors(q[1..])
  }

  function LastThree(q: seq<Toast>): seq<Toast> {
    if |q| <= MAX_VISIBLE then q else q[|q| - MAX_VISIBLE..]
  }

  lemma {:induction false} Counted(q: seq<Toast>)
    ensures Errors(q) + Others(q) == |q| && |OnlyErrors(q)| == Errors(q)
  {
    if q != [] { Counted(q[1..]); }
  }

  lemma {:induction false} CountAppend(a: seq<Toast>, b: seq<Toast>)
    ensures Errors(a + b) == Errors(a) + Errors(b) && Others(a + b) == Others(a) + Others(b)
  {
    if a == [] {
      assert a + b == b;
    } else {
      assert (a + b)[1..] == a[1..] + b;
      CountAppend(a[1..], b);
    }
  }

  lemma {:induction false} ErrorsAppend(a: seq<Toast>, b: seq<Toast>)
    ensures OnlyErrors(a + b) == OnlyErrors(a) + OnlyErrors(b)
  {
    if a == [] {
      assert a + b == b;
    } else {
      assert (a + b)[1..] == a[1..] + b && (a + b)[0] == a[0];
      ErrorsAppend(a[1..], b);
      Assoc(if a[0].variant.Error? then [a[0]] else [], OnlyErrors(a[1..]), OnlyErrors(b));
    }
  }

  /** What the eviction loop has left when it has looked at the first `p`. */
  function Swept(q: seq<Toast>, p: nat): seq<Toast>
    requires p <= |q|
  {
    OnlyErrors(q[..p]) + q[p..]
  }

  lemma SweepOne(q: seq<Toast>, p: nat)
    requires p < |q|
    ensures var i, r := |OnlyErrors(q[..p])|, Swept(q, p);
            && i < |r| && r[i] == q[p]
            && Swept(q, p + 1) == (if q[p].variant.Error? then r else r[..i] + r[i + 1..])
            && |OnlyErrors(q[..p + 1])| == (if q[p].variant.Error? then i + 1 else i)
  {
    var e := OnlyErrors(q[..p]);
    assert q[..p + 1] == q[..p] + [q[p]] && q[p..] == [q[p]] + q[p + 1..];
    ErrorsAppend(q[..p], [q[p]]);
    assert [q[p]][1..] == [];
    hide OnlyErrors;
    DropAt(e, q[p], q[p + 1..]);
  }

  lemma DropAt<T>(a: seq<T>, x: T, b: seq<T>)
    ensures var r := a + ([x] + b);
            |a| < |r| && r[|a|] == x && r[..|a|] + r[|a| + 1..] == a + b && (a + [x]) + b == r && a + [] + b == a + b
  {
    assert (a + ([x] + b))[..|a|] == a && (a + ([x] + b))[|a| + 1..] == b;
  }

  /** Counts before, at and after a position add up. */
  lemma CountAt(q: seq<Toast>, i: nat)
    requires i < |q|
    ensures var e := if q[i].variant.Error? then 1 else 0;
            && Errors(q[i..]) == e + Errors(q[i + 1..]) && Others(q[i..]) == 1 - e + Others(q[i + 1..])
            && Errors(q) == Errors(q[..i]) + Errors(q[i..]) && Others(q) == Others(q[..i]) + Others(q[i..])
  {
    hide *;
    CountAppend(q[..i], q[i..]);
    CountFirst(q[i..]);
    CutsAt(q, i);
  }

  lemma CountFirst(q: seq<Toast>)
    requires q != []
    ensures var e := if q[0].variant.Error? then 1 else 0;
            Errors(q) == e + Errors(q[1..]) && Others(q) == 1 - e + Others(q[1..])
  {
  }

  lemma CutsAt<T>(q: seq<T>, i: nat)
    requires i < |q|
    ensures q == q[..i] + q[i..] && q[i..] != [] && q[i..][0] == q[i] && q[i..][1..] == q[i + 1..]
  {
  }

  lemma FewerLater(q: seq<Toast>, i: nat, j: nat)
    requires i <= j <= |q|
    ensures Others(q[j..]) <= Others(q[i..]) && Errors(q[j..]) <= Errors(q[i..])
  {
    CountAppend(q[i..j], q[j..]);
    assert q[i..] == q[i..j] + q[j..];
  }

  lemma {:induction false} AllStay(q: seq<Toast>, i: nat)
    requires i <= |q| && forall j | i <= j < |q| :: Stays(q, j)
    ensures Staying(q, i) == q[i..]
    decreases |q| - i
  {
    if i < |q| {
      AllStay(q, i + 1);
      assert q[i..] == [q[i]] + q[i + 1..];
    }
  }

  lemma {:induction false} ErrorsStay(q: seq<Toast>, i: nat, p: nat)
    requires i <= p <= |q| && forall j | i <= j < p :: Stays(q, j) <==> q[j].variant.Error?
    ensures Staying(q, i) == OnlyErrors(q[i..p]) + Staying(q, p)
    decreases p - i
  {
    if i < p {
      ErrorsStay(q, i + 1, p);
      assert q[i..p][1..] == q[i + 1..p];
      Assoc(if q[i].variant.Error? then [q[i]] else [], OnlyErrors(q[i + 1..p]), Staying(q, p));
    } else {
      assert q[i..p] == [];
    }
  }

  lemma LastThreeOf(x: Toast, rest: seq<Toast>)
    ensures LastThree([x] + rest) == (if |rest| < MAX_VISIBLE then [x] else []) + LastThree(rest)
    ensures LastThree([] + rest) == [] + LastThree(rest)
  {
    assert [] + rest == rest && [] + LastThree(rest) == LastThree(rest);
  }

  lemma {:induction false} NewestErrorsStay(q: seq<Toast>, i: nat)
    requires i <= |q| && Errors(q) >= MAX_VISIBLE
    ensures Staying(q, i) == LastThree(OnlyErrors(q[i..]))
    decreases |q| - i
  {
    if i < |q| {
      NewestErrorsStay(q, i + 1);
      assert q[i..][1..] == q[i + 1..];
      Counted(q[i + 1..]);
      LastThreeOf(q[i], OnlyErrors(q[i + 1..]));
    }
  }

  /** The eviction loop stopped at `p` having dropped every other toast before it. */
  lemma StoppedAt(q: seq<Toast>, p: nat)
    requires p <= |q| && Errors(q[..p]) + |q| - p == MAX_VISIBLE
    ensures Staying(q, 0) == OnlyErrors(q[..p]) + q[p..]
  {
    CountAppend(q[..p], q[p..]);
    assert q == q[..p] + q[p..] && q[0..p] == q[..p];
    Counted(q[p..]);
    forall j | 0 <= j < |q|
      ensures j < p ==> (Stays(q, j) <==> q[j].variant.Error?)
      ensures j >= p ==> Stays(q, j)
    {
      CountAt(q, j);
      if j < p { FewerLater(q, j + 1, p); } else { FewerLater(q, p, j); }
    }
    ErrorsStay(q, 0, p);
    AllStay(q, p);
  }

  method CapQueue(next: seq<Toast>) returns (result: seq<Toast>)
    ensures result == Staying(next, 0)
    ensures |result| == if |next| <= MAX_VISIBLE then |next| else MAX_VISIBLE
  {
    if |next| <= MAX_VISIBLE {
      forall j | 0 <= j < |next| ensures Stays(next, j) {
        CountAt(next, j);
        Counted(next);
      }
      AllStay(next, 0);
      assert next[0..] == next;
      return next;
    }
    result := next;
    var toDrop := |result| - MAX_VISIBLE;
    var i := 0;
    ghost var p := 0;
    assert next[..0] == [] && next[0..] == next;
    while i < |result| && toDrop > 0
      invariant 0 <= toDrop && p <= |next|
      invariant i == |OnlyErrors(next[..p])| && result == Swept(next, p)
      invariant |result| - MAX_VISIBLE == toDrop
      decreases |next| - p
    {
      SweepOne(next, p);
      if !result[i].variant.Error? {
        result := result[..i] + result[i + 1..];
        toDrop := toDrop - 1;
      } else {
        i := i + 1;
      }
      p := p + 1;
    }
    Counted(next[..p]);
    if |result| > MAX_VISIBLE {
      assert p == |next| && next[..p] == next == next[0..];
      NewestErrorsStay(next, 0);
      return result[|result| - MAX_VISIBLE..];
    }
    StoppedAt(next, p);
  }

  // ---- the store -----------------------------------------------------------------------

  predicate HasID(ts: seq<Toast>, id: string) {
    exists i | 0 <= i < |ts| :: ts[i].id == id
  }

  function ReplaceByID(ts: seq<Toast>, item: Toast): seq<Toast> {
    if ts == [] then [] else if ts[0].id == item.id then [item] + ts[1..] else [ts[0]] + ReplaceByID(ts[1..], item)
  }

  /** A toast with an id on screen takes its place; a new one joins the queue and the queue is capped. */
  function Added(ts: seq<Toast>, item: Toast): seq<Toast> {
    if HasID(ts, item.id) then ReplaceByID(ts, item) else Staying(ts + [item], 0)
  }

  function Dismissed(ts: seq<Toast>, id: string): seq<Toast> {
    if ts == [] then [] else (if ts[0].id == id then [] else [ts[0]]) + Dismissed(ts[1..], id)
  }

  function Item(variant: Variant, message: string, opts: Options, nextID: nat): Toast {
    Toast(if opts.id.Some? then opts.id.value else "t" + Decimal(nextID), variant, message, opts.action,
          if opts.duration.Some? then opts.duration.value else DefaultDuration(variant))
  }

  class ToastStore {
    var toasts: seq<Toast>
    var nextID: nat

    constructor ()
      ensures toasts == [] && nextID == 1
    {
      toasts, nextID := [], 1;
    }

    method Add(variant: Variant, message: string, opts: Options) returns (id: string)
      modifies this
      ensures id == Item(variant, message, opts, old(nextID)).id
      ensures toasts == Added(old(toasts), Item(variant, message, opts, old(nextID)))
      ensures nextID == if opts.id.None? then old(nextID) + 1 else old(nextID)
    {
      var item := Item(variant, message, opts, nextID);
      id := item.id;
      if opts.id.None? {
        nextID := nextID + 1;
      }
      var existing := 0;
      while existing < |toasts| && toasts[existing].id != id
        invariant existing <= |toasts| && forall j | 0 <= j < existing :: toasts[j].id != id
      {
        existing := existing + 1;
      }
      if existing < |toasts| {
        ReplaceAt(toasts, item, existing);
        toasts := toasts[existing := item];
      } else {
        toasts := CapQueue(toasts + [item]);
      }
    }

    method Dismiss(id: string)
      modifies this`toasts
      ensures toasts == Dismissed(old(toasts), id)
    {
      var next: seq<Toast> := [];
      for i := 0 to |toasts|
        invariant next + Dismissed(toasts[i..], id) == Dismissed(toasts, id)
      {
        assert toasts[i..][1..] == toasts[i + 1..];
        if toasts[i].id != id {
          next := next + [toasts[i]];
        }
      }
      toasts := next;
    }

    method Clear()
      modifies this`toasts
      ensures toasts == []
    {
      toasts := [];
    }

    /** Any of the three calls is a step of a run. */
    method Call(step: Step)
      modifies this
      ensures State(toasts, nextID) == Next(State(old(toasts), old(nextID)), step)
    {
      match step {
        case AddStep(variant, message, opts) =>
          var _ := Add(variant, message, opts);
        case DismissStep(id) => Dismiss(id);
        case ClearStep => Clear();
      }
    }

    /** Any number of calls, from an empty screen: never more than three toasts, and no id twice. */
    method CallEach(steps: seq<Step>)
      requires toasts == []
      modifies this
      ensures State(toasts, nextID) == After(State([], old(nextID)), steps)
      ensures |toasts| <= 3 && UniqueIDs(toasts)
    {
      ghost var start := State(toasts, nextID);
      for k := 0 to |steps|
        invariant After(State(toasts, nextID), steps[k..]) == After(start, steps)
      {
        assert steps[k..][0] == steps[k] && steps[k..][1..] == steps[k + 1..];
        Call(steps[k]);
      }
      RunsStayOnScreen(start, steps);
    }
  }

  lemma {:induction false} ReplaceAt(ts: seq<Toast>, item: Toast, k: nat)
    requires k < |ts| && ts[k].id == item.id && forall j | 0 <= j < k :: ts[j].id != item.id
    ensures ReplaceByID(ts, item) == ts[k := item]
  {
    if k > 0 {
      ReplaceAt(ts[1..], item, k - 1);
      assert ts[k := item] == [ts[0]] + ts[1..][k - 1 := item];
    } else {
      assert ts[k := item] == [item] + ts[1..];
    }
  }

  // ---- every run ------------------------------------------------------------------------

  predicate UniqueIDs(ts: seq<Toast>) {
    forall i, j | 0 <= i < j < |ts| :: ts[i].id != ts[j].id
  }

  predicate OnScreen(ts: seq<Toast>) {
    |ts| <= MAX_VISIBLE && UniqueIDs(ts)
  }

  datatype Step = AddStep(variant: Variant, message: string, opts: Options) | DismissStep(id: string) | ClearStep

  datatype State = State(toasts: seq<Toast>, nextID: nat)

  function Next(s: State, step: Step): State {
    match step
    case AddStep(v, m, opts) => State(Added(s.toasts, Item(v, m, opts, s.nextID)), if opts.id.None? then s.nextID + 1
        else s.nextID)
    case DismissStep(id) => s.(toasts := Dismissed(s.toasts, id))
    case ClearStep => s.(toasts := [])
  }

  function After(s: State, steps: seq<Step>): State
    decreases |steps|
  {
    if steps == [] then s else After(Next(s, steps[0]), steps[1..])
  }

  /** What stays is what was queued and stays. */
  lemma {:induction false} StayingMember(q: seq<Toast>, i: nat, x: Toast)
    requires i <= |q|
    ensures x in Staying(q, i) <==> exists k | i <= k < |q| :: q[k] == x && Stays(q, k)
    decreases |q| - i
  {
    if i < |q| {
      StayingMember(q, i + 1, x);
      var first := if Stays(q, i) then [q[i]] else [];
      assert x in first + Staying(q, i + 1) <==> x in first || x in Staying(q, i + 1);
    }
  }

  lemma UniqueWith(x: Toast, rest: seq<Toast>)
    requires UniqueIDs(rest) && forall y | y in rest :: y.id != x.id
    ensures UniqueIDs([x] + rest)
  {
    var all := [x] + rest;
    forall i, j | 0 <= i < j < |all| ensures all[i].id != all[j].id {
      assert all[j] == rest[j - 1];
      if i > 0 { assert all[i] == rest[i - 1]; }
    }
  }

  lemma {:induction false} StayingKeepsUnique(q: seq<Toast>, i: nat)
    requires i <= |q| && UniqueIDs(q)
    ensures UniqueIDs(Staying(q, i))
    decreases |q| - i
  {
    if i < |q| {
      var rest := Staying(q, i + 1);
      StayingKeepsUnique(q, i + 1);
      forall y | y in rest ensures y.id != q[i].id { StayingMember(q, i + 1, y); }
      UniqueWith(q[i], rest);
      assert [] + rest == rest;
    }
  }

  lemma {:induction false} DismissedIsPart(ts: seq<Toast>, id: string)
    requires UniqueIDs(ts)
    ensures UniqueIDs(Dismissed(ts, id)) && |Dismissed(ts, id)| <= |ts|
    ensures forall x :: x in Dismissed(ts, id) <==> x in ts && x.id != id
  {
    if ts != [] {
      DismissedIsPart(ts[1..], id);
      assert ts == [ts[0]] + ts[1..];
      var rest := Dismissed(ts[1..], id);
      forall y | y in rest ensures y.id != ts[0].id {
        var m :| 0 <= m < |ts[1..]| && ts[1..][m] == y;
        assert ts[m + 1] == y;
      }
      UniqueWith(ts[0], rest);
      assert [] + rest == rest;
    }
  }

  lemma AddedFits(ts: seq<Toast>, item: Toast)
    requires OnScreen(ts)
    ensures OnScreen(Added(ts, item)) && (HasID(ts, item.id) ==> |Added(ts, item)| == |ts|)
  {
    if HasID(ts, item.id) {
      var k :| 0 <= k < |ts| && ts[k].id == item.id;
      ReplaceAt(ts, item, k);
    } else {
      var q := ts + [item];
      StayingKeepsUnique(q, 0);
      StayingSize(q);
    }
  }

  lemma StayingSize(q: seq<Toast>)
    requires |q| <= MAX_VISIBLE + 1
    ensures |Staying(q, 0)| <= MAX_VISIBLE
  {
    Counted(q);
    if Errors(q) >= MAX_VISIBLE {
      NewestErrorsStay(q, 0);
    } else if |q| > MAX_VISIBLE {
      var p := FirstOther(q);
      StoppedAt(q, p + 1);
      Counted(q[..p + 1]);
    } else {
      StayingNoMore(q, 0);
    }
  }

  lemma {:induction false} StayingNoMore(q: seq<Toast>, i: nat)
    requires i <= |q|
    ensures |Staying(q, i)| <= |q| - i
    decreases |q| - i
  {
    if i < |q| { StayingNoMore(q, i + 1); }
  }

  lemma {:induction false} FirstOther(q: seq<Toast>) returns (p: nat)
    requires Errors(q) < |q|
    ensures p < |q| && Errors(q[..p + 1]) == p
  {
    if !q[0].variant.Error? {
      p := 0;
      assert q[..1][1..] == [];
    } else {
      var r := FirstOther(q[1..]);
      p := r + 1;
      assert q[..p + 1][1..] == q[1..][..r + 1];
    }
  }

  /** What a call puts on screen: its message, variant and action; the id it names or else a new number;
      and a duration of three seconds unless it names one - or, for an error, none. */
  lemma ItemAsAsked(variant: Variant, message: string, opts: Options, nextID: nat)
    ensures var item := Item(variant, message, opts, nextID);
            && item.variant == variant && item.message == message && item.action == opts.action
            && item.id == (if opts.id.Some? then opts.id.value else "t" + Decimal(nextID))
            && item.duration == (if opts.duration.Some? then opts.duration.value
                                 else if variant.Error? then 0 else 3000)
  {
  }

  predicate IsNumbered(id: string, n: nat) {
    id == "t" + Decimal(n)
  }

  /** No toast on screen has a number still to be given out. */
  ghost predicate NumbersAhead(s: State) {
    forall i, n: nat | 0 <= i < |s.toasts| && s.nextID <= n :: !IsNumbered(s.toasts[i].id, n)
  }

  /** The step names no number still to be given out: none at all, one of its own, or one it was given. */
  ghost predicate NamesNoNumber(s: State, step: Step) {
    step.AddStep? && step.opts.id.Some? ==> forall n: nat | s.nextID <= n :: !IsNumbered(step.opts.id.value, n)
  }

  ghost predicate AllNameNoNumber(s: State, steps: seq<Step>)
    decreases |steps|
  {
    steps != [] ==> NamesNoNumber(s, steps[0]) && AllNameNoNumber(Next(s, steps[0]), steps[1..])
  }

  lemma NumbersDiffer(m: nat, n: nat)
    requires "t" + Decimal(m) == "t" + Decimal(n)
    ensures m == n
  {
    assert ("t" + Decimal(m))[1..] == Decimal(m) && ("t" + Decimal(n))[1..] == Decimal(n);
    ValueOfDecimal(m);
    ValueOfDecimal(n);
  }

  lemma InAdded(ts: seq<Toast>, item: Toast, x: Toast)
    requires x in Added(ts, item)
    ensures x == item || x in ts
  {
    if HasID(ts, item.id) {
      InReplaced(ts, item, x);
    } else {
      StayingMember(ts + [item], 0, x);
    }
  }

  lemma {:induction false} InReplaced(ts: seq<Toast>, item: Toast, x: Toast)
    requires x in ReplaceByID(ts, item)
    ensures x == item || x in ts
  {
    if ts != [] && ts[0].id != item.id && x != ts[0] { InReplaced(ts[1..], item, x); }
  }

  lemma {:induction false} InDismissed(ts: seq<Toast>, id: string, x: Toast)
    requires x in Dismissed(ts, id)
    ensures x in ts
  {
    if ts != [] && x != ts[0] { InDismissed(ts[1..], id, x); }
  }

  lemma StepKeepsNumbers(s: State, step: Step)
    requires NumbersAhead(s) && NamesNoNumber(s, step)
    ensures NumbersAhead(Next(s, step))
  {
    var v := Next(s, step);
    forall i, n: nat | 0 <= i < |v.toasts| && v.nextID <= n ensures !IsNumbered(v.toasts[i].id, n) {
      var x := v.toasts[i];
      match step {
        case AddStep(variant, m, opts) =>
          var item := Item(variant, m, opts, s.nextID);
          InAdded(s.toasts, item, x);
          if x == item && opts.id.None? && IsNumbered(x.id, n) { NumbersDiffer(s.nextID, n); }
        case DismissStep(id) => InDismissed(s.toasts, id, x);
        case ClearStep =>
      }
    }
  }

  lemma {:induction false} RunKeepsNumbers(s: State, steps: seq<Step>)
    requires NumbersAhead(s) && AllNameNoNumber(s, steps)
    ensures NumbersAhead(After(s, steps))
    decreases |steps|
  {
    if steps != [] {
      StepKeepsNumbers(s, steps[0]);
      RunKeepsNumbers(Next(s, steps[0]), steps[1..]);
    }
  }

  /** Over every run, as long as no caller names a number that is still to be given out, a call without an
      id replaces no toast: its own id is new, and it joins the queue. */
  lemma NewToastReplacesNone(s: State, steps: seq<Step>, variant: Variant, message: string, opts: Options)
    requires s.toasts == [] && AllNameNoNumber(s, steps) && opts.id.None?
    ensures var u := After(s, steps);
            var item := Item(variant, message, opts, u.nextID);
            && !HasID(u.toasts, item.id)
            && Next(u, AddStep(variant, message, opts)).toasts == Staying(u.toasts + [item], 0)
  {
    RunKeepsNumbers(s, steps);
    var u := After(s, steps);
    var item := Item(variant, message, opts, u.nextID);
    if HasID(u.toasts, item.id) {
      var i :| 0 <= i < |u.toasts| && u.toasts[i].id == item.id;
      assert IsNumbered(u.toasts[i].id, u.nextID);
    }
  }

  /** A call with the id of a toast on screen puts its own in that toast's place; the others stay put. */
  lemma SameIDReplaces(ts: seq<Toast>, item: Toast, i: nat)
    requires UniqueIDs(ts) && i < |ts| && ts[i].id == item.id
    ensures Added(ts, item) == ts[i := item]
  {
    ReplaceAt(ts, item, i);
  }

  /** Over every run of add, dismiss and clear, at most three toasts are on screen and no two of
      them share an id. */
  lemma {:induction false} RunsStayOnScreen(s: State, steps: seq<Step>)
    requires OnScreen(s.toasts)
    ensures OnScreen(After(s, steps).toasts) && |After(s, steps).toasts| <= 3
    decreases |steps|
  {
    if steps != [] {
      match steps[0] {
        case AddStep(v, m, opts) => AddedFits(s.toasts, Item(v, m, opts, s.nextID));
        case DismissStep(id) => DismissedIsPart(s.toasts, id);
        case ClearStep =>
      }
      RunsStayOnScreen(Next(s, steps[0]), steps[1..]);
    }
  }

  // ---- who is evicted ---------------------------------------------------------------------

  lemma InAddedIff(ts: seq<Toast>, item: Toast, i: nat)
    requires OnScreen(ts) && !HasID(ts, item.id) && i <= |ts|
    ensures (ts + [item])[i] in Added(ts, item) <==> Stays(ts + [item], i)
  {
    var q := ts + [item];
    StayingMember(q, 0, q[i]);
    if q[i] in Staying(q, 0) {
      var x := q[i];
      var k :| 0 <= k < |q| && q[k] == x && Stays(q, k);
      assert q[k].id == q[i].id;
    }
  }

  /** A toast with a new id appears unless it is not an error and three errors are on screen. */
  lemma NewcomerShownIff(ts: seq<Toast>, item: Toast)
    requires OnScreen(ts) && !HasID(ts, item.id)
    ensures item in Added(ts, item) <==> item.variant.Error? || Errors(ts) < MAX_VISIBLE
  {
    var q := ts + [item];
    InAddedIff(ts, item, |ts|);
    CountAppend(ts, [item]);
    assert q[|ts| + 1..] == [] && [item][1..] == [] && q[|ts|] == item;
  }

  /** An error on screen gives way to a newcomer only if that is an error too and three are on screen
      of which it is the oldest. */
  lemma ErrorEvictedIff(ts: seq<Toast>, item: Toast, i: nat)
    requires OnScreen(ts) && !HasID(ts, item.id) && i < |ts| && ts[i].variant.Error?
    ensures ts[i] !in Added(ts, item) <==>
              item.variant.Error? && |ts| == MAX_VISIBLE && Errors(ts) == MAX_VISIBLE && i == 0
  {
    InAddedIff(ts, item, i);
    ErrorsAfter(ts, item, i);
    CountAt(ts, i);
    Counted(ts);
    Counted(ts[i + 1..]);
  }

  lemma ErrorsAfter(ts: seq<Toast>, item: Toast, i: nat)
    requires i < |ts|
    ensures (ts + [item])[i] == ts[i]
    ensures Errors((ts + [item])[i + 1..]) == Errors(ts[i + 1..]) + if item.variant.Error? then 1 else 0
  {
    assert (ts + [item])[i + 1..] == ts[i + 1..] + [item] && [item][1..] == [];
    CountAppend(ts[i + 1..], [item]);
  }
}
