/** What the provider store promises over an echo of its mask and over every run of patches. */
module ProviderTheorems {
  import opened Wrappers
  import opened Utf8
  import opened Crypto
  import opened Providers

  ghost predicate Draws(nonces: Nonces) {
    forall k: string :: nonces(k).Some? ==> |nonces(k).value| == NONCE_SIZE
  }

  predicate StillWrapped(c: Cipher, key: Option<Key>, kind: Kind, k: string, v: Value) {
    key.Some? && IsPassword(kind, k) && v.Str? && Decrypt(c, key.value, v.text).Some?
  }

  /** Storing a value and reading it back gives it back, unless it is itself an envelope that opens. */
  lemma ValueRoundTripIff(c: Cipher, key: Option<Key>, kind: Kind, nonces: Nonces, k: string, v: Value)
    requires Lawful(c) && Draws(nonces) && !SealStuck(key, kind, nonces, k, v)
    ensures PlainValue(c, key, kind, k, SealedValue(c, key, kind, nonces, k, v)) == v
            <==> !StillWrapped(c, key, kind, k, v)
  {
    if NeedsSeal(key, kind, k, v) {
      EnvelopeOpens(c, key.value, nonces(k).value, v.text);
    } else if StillWrapped(c, key, kind, k, v) {
      DecryptShrinks(c, key.value, v.text);
    }
  }

  // ---- the echo ----------------------------------------------------------------

  predicate EchoSafe(c: Cipher, key: Option<Key>, kind: Kind, k: string, v: Value) {
    v != Str("") && (IsSecretField(kind, k) ==> v.Str?) && !StillWrapped(c, key, kind, k, v)
  }

  lemma EchoMergedAt(sentinel: string, kind: Kind, p: Config, k: string)
    requires sentinel != ""
    ensures MergedAt(sentinel, p, Masked(sentinel, kind, p), k) ==
            if k in p && p[k] != Str("") && (IsSecretField(kind, k) ==> p[k].Str?) then Some(p[k]) else None
  {
    if k in p && IsSecretField(kind, k) {
      assert p[k].Str? && p[k] != Str("") ==> p[k].text != "";
    }
  }

  function Echoed(c: Cipher, key: Option<Key>, sentinel: string, kind: Kind, nonces: Nonces, p: Config): Config {
    Plain(c, key, kind, Sealed(c, key, kind, nonces, Merged(sentinel, p, Masked(sentinel, kind, p))))
  }

  lemma EchoedAt(c: Cipher, key: Option<Key>, sentinel: string, kind: Kind, nonces: Nonces, p: Config, k: string)
    requires Lawful(c) && Draws(nonces) && sentinel != ""
    requires !SealFails(key, kind, nonces, Merged(sentinel, p, Masked(sentinel, kind, p)))
    ensures var after := Echoed(c, key, sentinel, kind, nonces, p);
            && (k in after ==> k in p)
            && (k in p ==> (k in after && after[k] == p[k] <==> EchoSafe(c, key, kind, k, p[k])))
  {
    var m := Merged(sentinel, p, Masked(sentinel, kind, p));
    EchoMergedAt(sentinel, kind, p, k);
    if k in m {
      assert !SealStuck(key, kind, nonces, k, m[k]);
      ValueRoundTripIff(c, key, kind, nonces, k, m[k]);
    }
  }

  lemma SameIff(after: Config, p: Config, same: string -> bool)
    requires forall k | k in after :: k in p
    requires forall k | k in p :: (k in after && after[k] == p[k]) <==> same(k)
    ensures after == p <==> forall k | k in p :: same(k)
  {
    if after == p {
      assert forall k | k in p :: k in after;
    }
    if forall k | k in p :: same(k) {
      assert after.Keys == p.Keys;
    }
  }

  /** Sending back what Mask showed leaves the decrypted config as it was if and only if every secret
      is a string, no value is the empty string, and no secret opens once more. */
  lemma EchoIff(c: Cipher, key: Option<Key>, sentinel: string, rows: Rows, kind: Kind, enabled: Option<bool>,
      nonces: Nonces)
    requires Lawful(c) && Draws(nonces) && sentinel != ""
    requires var p := Plain(c, key, kind, Current(rows, kind).config);
             !SealFails(key, kind, nonces, MergedConfig(c, key, sentinel, rows, kind,
                 Patch(enabled, Masked(sentinel, kind, p))))
    ensures var p := Plain(c, key, kind, Current(rows, kind).config);
            var echo := Patch(enabled, Masked(sentinel, kind, p));
            Plain(c, key, kind, Written(c, key, sentinel, rows, kind, echo, nonces).config) == p
            <==> forall k | k in p :: EchoSafe(c, key, kind, k, p[k])
  {
    var p := Plain(c, key, kind, Current(rows, kind).config);
    var after := Echoed(c, key, sentinel, kind, nonces, p);
    forall k {
      EchoedAt(c, key, sentinel, kind, nonces, p, k);
    }
    SameIff(after, p, k => k in p && EchoSafe(c, key, kind, k, p[k]));
  }

  /** The mask of an earlier process is not recognised: echoing it overwrites the secret with the
      earlier sentinel. */
  lemma OldMaskOverwrites(c: Cipher, key: Option<Key>, hex: string, sentinel: string, rows: Rows, kind: Kind,
                          enabled: Option<bool>, nonces: Nonces, k: string)
    requires Lawful(c) && Draws(nonces) && sentinel != "redacted:" + hex
    requires var p := Plain(c, key, kind, Current(rows, kind).config);
             && k in p && IsSecretField(kind, k) && p[k].Str? && p[k].text != ""
             && !SealFails(key, kind, nonces,
                  MergedConfig(c, key, sentinel, rows, kind, Patch(enabled, Masked("redacted:" + hex, kind, p))))
    ensures var p := Plain(c, key, kind, Current(rows, kind).config);
            var echo := Patch(enabled, Masked("redacted:" + hex, kind, p));
            var after := Plain(c, key, kind, Written(c, key, sentinel, rows, kind, echo, nonces).config);
            k in after && after[k] == Str("redacted:" + hex)
  {
    var stale := "redacted:" + hex;
    var p := Plain(c, key, kind, Current(rows, kind).config);
    var echo := Patch(enabled, Masked(stale, kind, p));
    var m := MergedConfig(c, key, sentinel, rows, kind, echo);
    assert stale[0] == 'r' && PREFIX[0] == 'e';
    assert MergedAt(sentinel, p, echo.config, k) == Some(Str(stale));
    assert k in m && m[k] == Str(stale);
    assert !SealStuck(key, kind, nonces, k, m[k]);
    ValueRoundTripIff(c, key, kind, nonces, k, m[k]);
  }

  /** What an echo of the stale mask leaves as it is: secrets that happen to be the old sentinel, and
      everything else an echo of the present mask would leave. */
  predicate StaleSafe(c: Cipher, key: Option<Key>, kind: Kind, stale: string, k: string, v: Value) {
    EchoSafe(c, key, kind, k, v) && (IsSecretField(kind, k) ==> v == Str(stale))
  }

  lemma StaleMergedAt(sentinel: string, stale: string, kind: Kind, p: Config, k: string)
    requires sentinel != "" && stale != "" && stale != sentinel
    ensures MergedAt(sentinel, p, Masked(stale, kind, p), k) ==
            if k !in p || p[k] == Str("") then None
            else if !IsSecretField(kind, k) then Some(p[k])
            else if p[k].Str? then Some(Str(stale)) else None
  {
    if k in p && IsSecretField(kind, k) {
      assert p[k].Str? && p[k] != Str("") ==> p[k].text != "";
    }
  }

  function StaleEchoed(c: Cipher, key: Option<Key>, sentinel: string, stale: string, kind: Kind, nonces: Nonces,
      p: Config): Config {
    Plain(c, key, kind, Sealed(c, key, kind, nonces, Merged(sentinel, p, Masked(stale, kind, p))))
  }

  lemma StaleEchoedAt(c: Cipher, key: Option<Key>, sentinel: string, stale: string, kind: Kind, nonces: Nonces,
      p: Config, k: string)
    requires Lawful(c) && Draws(nonces) && sentinel != "" && stale != "" && stale != sentinel && !IsEncrypted(stale)
    requires !SealFails(key, kind, nonces, Merged(sentinel, p, Masked(stale, kind, p)))
    ensures var after := StaleEchoed(c, key, sentinel, stale, kind, nonces, p);
            && (k in after ==> k in p)
            && (k in p ==> (k in after && after[k] == p[k] <==> StaleSafe(c, key, kind, stale, k, p[k])))
  {
    var m := Merged(sentinel, p, Masked(stale, kind, p));
    StaleMergedAt(sentinel, stale, kind, p, k);
    if k in m {
      assert !SealStuck(key, kind, nonces, k, m[k]);
      ValueRoundTripIff(c, key, kind, nonces, k, m[k]);
    }
  }

  /** Sending back a mask of an earlier process leaves the decrypted config as it was if and only if
      every secret is that process's sentinel, no value is empty, and no secret opens once more - so
      in practice exactly when the config holds no secret. */
  lemma StaleEchoIff(c: Cipher, key: Option<Key>, hex: string, sentinel: string, rows: Rows, kind: Kind,
                     enabled: Option<bool>, nonces: Nonces)
    requires Lawful(c) && Draws(nonces) && sentinel != "" && sentinel != "redacted:" + hex
    requires var p := Plain(c, key, kind, Current(rows, kind).config);
             !SealFails(key, kind, nonces,
               MergedConfig(c, key, sentinel, rows, kind, Patch(enabled, Masked("redacted:" + hex, kind, p))))
    ensures var p := Plain(c, key, kind, Current(rows, kind).config);
            var echo := Patch(enabled, Masked("redacted:" + hex, kind, p));
            Plain(c, key, kind, Written(c, key, sentinel, rows, kind, echo, nonces).config) == p
            <==> forall k | k in p :: StaleSafe(c, key, kind, "redacted:" + hex, k, p[k])
  {
    var stale := "redacted:" + hex;
    assert stale[0] == 'r' && PREFIX[0] == 'e';
    var p := Plain(c, key, kind, Current(rows, kind).config);
    var after := StaleEchoed(c, key, sentinel, stale, kind, nonces, p);
    forall k {
      StaleEchoedAt(c, key, sentinel, stale, kind, nonces, p, k);
    }
    SameIff(after, p, k => k in p && StaleSafe(c, key, kind, stale, k, p[k]));
  }

  // ---- every run of patches -------------------------------------------------------

  /** One PATCH that reached the store; the sentinel is that of the process serving it. */
  datatype Call = Call(kind: Kind, sentinel: string, patch: Patch, nonces: Nonces)

  function After(c: Cipher, key: Option<Key>, rows: Rows, call: Call): Rows {
    if SealFails(key, call.kind, call.nonces, MergedConfig(c, key, call.sentinel, rows, call.kind, call.patch)) then
        rows
    else rows[call.kind := Written(c, key, call.sentinel, rows, call.kind, call.patch, call.nonces)]
  }

  function AfterAll(c: Cipher, key: Option<Key>, rows: Rows, calls: seq<Call>): Rows
    decreases |calls|
  {
    if calls == [] then rows else AfterAll(c, key, After(c, key, rows, calls[0]), calls[1..])
  }

  function Stored(rows: Rows, kind: Kind, k: string): Option<Value> {
    if kind in rows && k in rows[kind].config then Some(rows[kind].config[k]) else None
  }

  /** The value a patch leaves under a key, before wrapping. */
  function NextPlain(c: Cipher, key: Option<Key>, rows: Rows, call: Call, k: string): Option<Value> {
    MergedAt(call.sentinel, Plain(c, key, call.kind, Current(rows, call.kind).config), call.patch.config, k)
  }

  lemma StoredAfter(c: Cipher, key: Option<Key>, rows: Rows, call: Call, k: string)
    ensures var failed := SealFails(key, call.kind, call.nonces,
              MergedConfig(c, key, call.sentinel, rows, call.kind, call.patch));
            var v := NextPlain(c, key, rows, call, k);
            && (failed ==> After(c, key, rows, call) == rows)
            && (!failed && v.Some? ==> !SealStuck(key, call.kind, call.nonces, k, v.value))
            && (!failed && v.Some? ==>
                  Stored(After(c, key, rows, call), call.kind, k) ==
                      Some(SealedValue(c, key, call.kind, call.nonces, k, v.value)))
            && (!failed && v.None? ==> Stored(After(c, key, rows, call), call.kind, k) == None)
            && forall l: Kind | l != call.kind :: Stored(After(c, key, rows, call), l, k) == Stored(rows, l, k)
  {
    var m := MergedConfig(c, key, call.sentinel, rows, call.kind, call.patch);
    var v := NextPlain(c, key, rows, call, k);
    if !SealFails(key, call.kind, call.nonces, m) && v.Some? {
      assert k in m && m[k] == v.value;
      assert !SealStuck(key, call.kind, call.nonces, k, m[k]);
    }
  }

  /** Opening a secret again and again would end in the empty string. */
  ghost predicate UnwrapsToEmpty(c: Cipher, key: Key, v: string)
    requires Lawful(c)
    decreases |v|
  {
    v == "" || (Decrypt(c, key, v).Some?
        && (DecryptShrinks(c, key, v); UnwrapsToEmpty(c, key, Decrypt(c, key, v).value)))
  }

  /** At rest under a key: no empty string, and every string password wrapped in an honest envelope. */
  ghost predicate ValueAtRest(c: Cipher, key: Key, kind: Kind, k: string, v: Value)
    requires Lawful(c)
  {
    v != Str("") && (IsPassword(kind, k) && v.Str? ==> IsEncrypted(v.text) && !UnwrapsToEmpty(c, key, v.text))
  }

  ghost predicate AtRest(c: Cipher, key: Key, rows: Rows)
    requires Lawful(c)
  {
    forall kind: Kind, k: string | Stored(rows, kind, k).Some? ::
        ValueAtRest(c, key, kind, k, Stored(rows, kind, k).value)
  }

  /** No password sent in is an envelope around nothing. */
  ghost predicate HonestCall(c: Cipher, key: Key, call: Call)
    requires Lawful(c)
  {
    && Draws(call.nonces)
    && forall k | k in call.patch.config && IsPassword(call.kind, k) && call.patch.config[k].Str?
         && call.patch.config[k].text != "" ::
         !UnwrapsToEmpty(c, key, call.patch.config[k].text)
  }

  lemma PlainAtRest(c: Cipher, key: Key, kind: Kind, k: string, v: Value)
    requires Lawful(c) && ValueAtRest(c, key, kind, k, v)
    ensures var p := PlainValue(c, Some(key), kind, k, v);
            p != Str("") && (IsPassword(kind, k) && p.Str? ==> !UnwrapsToEmpty(c, key, p.text))
  {
    if IsPassword(kind, k) && v.Str? && Decrypt(c, key, v.text).Some? {
      DecryptShrinks(c, key, v.text);
      assert !UnwrapsToEmpty(c, key, Decrypt(c, key, v.text).value);
    }
  }

  lemma SealedAtRest(c: Cipher, key: Key, kind: Kind, nonces: Nonces, k: string, v: Value)
    requires Lawful(c) && Draws(nonces) && !SealStuck(Some(key), kind, nonces, k, v)
    requires v != Str("") && (IsPassword(kind, k) && v.Str? ==> !UnwrapsToEmpty(c, key, v.text))
    ensures ValueAtRest(c, key, kind, k, SealedValue(c, Some(key), kind, nonces, k, v))
  {
    if NeedsSeal(Some(key), kind, k, v) {
      EnvelopeOpens(c, key, nonces(k).value, v.text);
    }
  }

  lemma StepAtRest(c: Cipher, key: Key, rows: Rows, call: Call)
    requires Lawful(c) && AtRest(c, key, rows) && HonestCall(c, key, call)
    ensures AtRest(c, key, After(c, Some(key), rows, call))
  {
    var after := After(c, Some(key), rows, call);
    forall kind: Kind, k: string | Stored(after, kind, k).Some?
      ensures ValueAtRest(c, key, kind, k, Stored(after, kind, k).value)
    {
      StoredAfter(c, Some(key), rows, call, k);
      if kind == call.kind && after != rows {
        var v := NextPlain(c, Some(key), rows, call, k);
        if Stored(rows, kind, k).Some? {
          PlainAtRest(c, key, kind, k, Stored(rows, kind, k).value);
        }
        SealedAtRest(c, key, kind, call.nonces, k, v.value);
      }
    }
  }

  /** Over every run of patches, by any number of processes under one key: no empty string is ever
      stored and every password field that holds a string carries the envelope prefix. */
  lemma {:induction false} RunsStayAtRest(c: Cipher, key: Key, rows: Rows, calls: seq<Call>)
    requires Lawful(c) && AtRest(c, key, rows) && forall i | 0 <= i < |calls| :: HonestCall(c, key, calls[i])
    ensures AtRest(c, key, AfterAll(c, Some(key), rows, calls))
    decreases |calls|
  {
    if calls != [] {
      StepAtRest(c, key, rows, calls[0]);
      RunsStayAtRest(c, key, After(c, Some(key), rows, calls[0]), calls[1..]);
    }
  }

  /** From rows at rest, a patch that is written leaves them at rest if and only if it is honest. */
  lemma AtRestAfterIff(c: Cipher, key: Key, rows: Rows, call: Call)
    requires Lawful(c) && AtRest(c, key, rows) && Draws(call.nonces) && !IsEncrypted(call.sentinel)
    requires !SealFails(Some(key), call.kind, call.nonces,
              MergedConfig(c, Some(key), call.sentinel, rows, call.kind, call.patch))
    ensures AtRest(c, key, After(c, Some(key), rows, call)) <==> HonestCall(c, key, call)
  {
    if HonestCall(c, key, call) {
      StepAtRest(c, key, rows, call);
    } else {
      var k :| k in call.patch.config && IsPassword(call.kind, k) && call.patch.config[k].Str?
               && call.patch.config[k].text != "" && UnwrapsToEmpty(c, key, call.patch.config[k].text);
      DishonestIsStored(c, key, rows, call, k);
    }
  }

  lemma DishonestIsStored(c: Cipher, key: Key, rows: Rows, call: Call, k: string)
    requires Lawful(c) && Draws(call.nonces) && !IsEncrypted(call.sentinel)
    requires !SealFails(Some(key), call.kind, call.nonces,
              MergedConfig(c, Some(key), call.sentinel, rows, call.kind, call.patch))
    requires k in call.patch.config && IsPassword(call.kind, k) && call.patch.config[k].Str?
    requires call.patch.config[k].text != "" && UnwrapsToEmpty(c, key, call.patch.config[k].text)
    ensures Stored(After(c, Some(key), rows, call), call.kind, k) == Some(call.patch.config[k])
    ensures !AtRest(c, key, After(c, Some(key), rows, call))
  {
    StoredAfter(c, Some(key), rows, call, k);
    assert IsEncrypted(call.patch.config[k].text);
    assert NextPlain(c, Some(key), rows, call, k) == Some(call.patch.config[k]);
    assert !ValueAtRest(c, key, call.kind, k, call.patch.config[k]);
  }

  lemma {:induction false} AfterOneMore(c: Cipher, key: Option<Key>, rows: Rows, calls: seq<Call>, n: int)
    requires 0 < n <= |calls|
    ensures AfterAll(c, key, rows, calls[..n]) == AfterAll(c, key, After(c, key, rows, calls[0]), calls[1..][..n - 1])
  {
    assert calls[..n][1..] == calls[1..][..n - 1];
  }

  /** A call whose sentinel is plain and whose randomness does not fail. */
  ghost predicate Served(call: Call) {
    Draws(call.nonces) && !IsEncrypted(call.sentinel) && forall k: string :: call.nonces(k).Some?
  }

  /** Rows are at rest throughout a run of patches if and only if every patch of the run is honest. */
  lemma {:induction false} RunsAtRestIff(c: Cipher, key: Key, rows: Rows, calls: seq<Call>)
    requires Lawful(c) && AtRest(c, key, rows) && forall i | 0 <= i < |calls| :: Served(calls[i])
    ensures (forall n | 0 <= n <= |calls| :: AtRest(c, key, AfterAll(c, Some(key), rows, calls[..n])))
            <==> forall i | 0 <= i < |calls| :: HonestCall(c, key, calls[i])
    decreases |calls|
  {
    assert calls[..0] == [];
    if calls != [] {
      var call, rest := calls[0], calls[1..];
      var after := After(c, Some(key), rows, call);
      AtRestAfterIff(c, key, rows, call);
      forall n | 1 <= n <= |calls|
        ensures AfterAll(c, Some(key), rows, calls[..n]) == AfterAll(c, Some(key), after, rest[..n - 1])
      {
        AfterOneMore(c, Some(key), rows, calls, n);
      }
      assert rest[..0] == [] && AfterAll(c, Some(key), rows, calls[..1]) == after;
      hide HonestCall, AtRest;
      if HonestCall(c, key, call) {
        RunsAtRestIff(c, key, after, rest);
        assert forall n | 0 <= n <= |rest| ::
            AfterAll(c, Some(key), after, rest[..n]) == AfterAll(c, Some(key), rows, calls[..n + 1]);
        assert forall i | 0 <= i < |rest| :: rest[i] == calls[i + 1];
      }
    }
  }

  function Touches(kind: Kind, sentinel: string, nonces: Nonces, n: nat): seq<Call> {
    if n == 0 then [] else [Call(kind, sentinel, Patch(None, map[]), nonces)] + Touches(kind, sentinel, nonces, n - 1)
  }

  /** An empty patch opens a stored envelope once and stores what was in it if that looks encrypted or is empty. */
  lemma EmptyPatchUnwraps(c: Cipher, key: Key, rows: Rows, kind: Kind, k: string, v: string, sentinel: string,
      nonces: Nonces)
    requires Lawful(c) && IsPassword(kind, k) && (forall l: string :: nonces(l).Some?)
    requires Stored(rows, kind, k) == Some(Str(v)) && v != "" && UnwrapsToEmpty(c, key, v)
    ensures var x := Decrypt(c, key, v).value;
            Stored(After(c, Some(key), rows, Call(kind, sentinel, Patch(None, map[]), nonces)), kind, k) == Some(Str(x))
  {
    var call := Call(kind, sentinel, Patch(None, map[]), nonces);
    var x := Decrypt(c, key, v).value;
    StoredAfter(c, Some(key), rows, call, k);
    assert NextPlain(c, Some(key), rows, call, k) == Some(Str(x));
    assert x == "" || IsEncrypted(x);
  }

  /** After `n` empty patches the key holds the empty string. */
  ghost predicate EmptyAfter(c: Cipher, key: Key, rows: Rows, kind: Kind, k: string, sentinel: string, nonces: Nonces,
      n: nat) {
    Stored(AfterAll(c, Some(key), rows, Touches(kind, sentinel, nonces, n)), kind, k) == Some(Str(""))
  }

  lemma EmptyAfterOneMore(c: Cipher, key: Key, rows: Rows, kind: Kind, k: string, sentinel: string, nonces: Nonces,
      n: nat)
    requires EmptyAfter(c, key, After(c, Some(key), rows, Call(kind, sentinel, Patch(None, map[]), nonces)), kind, k,
              sentinel, nonces, n)
    ensures EmptyAfter(c, key, rows, kind, k, sentinel, nonces, n + 1)
  {
    assert Touches(kind, sentinel, nonces, n + 1)[1..] == Touches(kind, sentinel, nonces, n);
  }

  /** The condition on patches cannot be dropped: each later patch, even an empty one, opens a stored
      envelope once more, until the empty string is stored. */
  lemma {:induction false} EnvelopeAroundNothing(c: Cipher, key: Key, rows: Rows, kind: Kind, k: string, v: string,
                                                sentinel: string, nonces: Nonces)
    requires Lawful(c) && IsPassword(kind, k) && (forall l: string :: nonces(l).Some?)
    requires Stored(rows, kind, k) == Some(Str(v)) && UnwrapsToEmpty(c, key, v)
    ensures exists n: nat :: EmptyAfter(c, key, rows, kind, k, sentinel, nonces, n)
    decreases |v|
  {
    if v == "" {
      assert EmptyAfter(c, key, rows, kind, k, sentinel, nonces, 0);
    } else {
      var after := After(c, Some(key), rows, Call(kind, sentinel, Patch(None, map[]), nonces));
      DecryptShrinks(c, key, v);
      EmptyPatchUnwraps(c, key, rows, kind, k, v, sentinel, nonces);
      EnvelopeAroundNothing(c, key, after, kind, k, Decrypt(c, key, v).value, sentinel, nonces);
      var m: nat :| EmptyAfter(c, key, after, kind, k, sentinel, nonces, m);
      EmptyAfterOneMore(c, key, rows, kind, k, sentinel, nonces, m);
    }
  }

  // ---- secrets under a lost key ---------------------------------------------------

  predicate Keeps(call: Call, k: string, e: string) {
    k !in call.patch.config || call.patch.config[k] == Str(call.sentinel) || call.patch.config[k] == Str(e)
  }

  /** An undecryptable secret survives one patch if and only if the patch does not replace it. */
  lemma UndecryptableKeptIff(c: Cipher, key: Key, rows: Rows, call: Call, k: string, e: string)
    requires Lawful(c) && Draws(call.nonces) && IsPassword(call.kind, k)
    requires Stored(rows, call.kind, k) == Some(Str(e)) && IsEncrypted(e) && Decrypt(c, key, e).None?
    requires !SealFails(Some(key), call.kind, call.nonces,
              MergedConfig(c, Some(key), call.sentinel, rows, call.kind, call.patch))
    ensures Stored(After(c, Some(key), rows, call), call.kind, k) == Some(Str(e)) <==> Keeps(call, k, e)
  {
    StoredAfter(c, Some(key), rows, call, k);
    var v := NextPlain(c, Some(key), rows, call, k);
    assert e != "";
    if v.Some? && NeedsSeal(Some(key), call.kind, k, v.value) {
      EnvelopeOpens(c, key, call.nonces(k).value, v.value.text);
    }
  }

  lemma {:induction false} UndecryptableSurvives(c: Cipher, key: Key, rows: Rows, calls: seq<Call>, kind: Kind,
      k: string, e: string)
    requires Lawful(c) && IsPassword(kind, k)
    requires Stored(rows, kind, k) == Some(Str(e)) && IsEncrypted(e) && Decrypt(c, key, e).None?
    requires forall i | 0 <= i < |calls| :: Draws(calls[i].nonces) && (calls[i].kind == kind ==> Keeps(calls[i], k, e))
    ensures Stored(AfterAll(c, Some(key), rows, calls), kind, k) == Some(Str(e))
    decreases |calls|
  {
    if calls != [] {
      var call := calls[0];
      StoredAfter(c, Some(key), rows, call, k);
      if call.kind == kind
         && !SealFails(Some(key), kind, call.nonces,
              MergedConfig(c, Some(key), call.sentinel, rows, kind, call.patch)) {
        UndecryptableKeptIff(c, key, rows, call, k, e);
      }
      UndecryptableSurvives(c, key, After(c, Some(key), rows, call), calls[1..], kind, k, e);
    }
  }
}
