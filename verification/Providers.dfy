/** Provider settings: which fields are secrets, the mask shown to the browser, and the patch
    that merges what the browser sends back into the encrypted row. */
module Providers {
  import opened Wrappers
  import opened Utf8
  import opened Crypto

  datatype Kind = Anthropic | OpenAI | OpenAICompat | Willys | Unknown(name: string)

  datatype FieldType = Text | Select | Password

  datatype Field = Field(key: string, fieldType: FieldType)

  /** A JSON value of a config: a string, or the raw text of anything else. */
  datatype Value = Str(text: string) | Json(raw: string)

  type Config = map<string, Value>

  datatype Row = Row(enabled: bool, config: Config)

  type Rows = map<Kind, Row>

  datatype Patch = Patch(enabled: Option<bool>, config: Config)

  /** What one draw of randomness per field gives; `None` is a failed draw. */
  type Nonces = string -> Option<seq<byte>>

  function FieldsOf(kind: Kind): seq<Field> {
    match kind
    case Anthropic => [Field("api_key", Password), Field("model", Select)]
    case OpenAI => [Field("api_key", Password), Field("model", Select)]
    case OpenAICompat => [Field("base_url", Text), Field("api_key", Password), Field("model", Text)]
    case Willys => [Field("username", Text), Field("password", Password)]
    case Unknown(_) => []
  }

  predicate PasswordAmong(fields: seq<Field>, key: string) {
    exists i | 0 <= i < |fields| :: fields[i] == Field(key, Password)
  }

  predicate IsPassword(kind: Kind, key: string) {
    PasswordAmong(FieldsOf(kind), key)
  }

  predicate IsField(kind: Kind, key: string) {
    exists i | 0 <= i < |FieldsOf(kind)| :: FieldsOf(kind)[i].key == key
  }

  /** Fields of the kind go by their type; any other key by its name. */
  predicate IsSecretField(kind: Kind, key: string) {
    IsPassword(kind, key) || (!IsField(kind, key) && key in ["api_key", "password", "token", "secret"])
  }

  /** No kind lists a key twice. */
  lemma FieldsDistinct(kind: Kind, i: nat, j: nat)
    requires i < j < |FieldsOf(kind)|
    ensures FieldsOf(kind)[i].key != FieldsOf(kind)[j].key
  {
    assert "api_key"[0] == 'a' && "model"[0] == 'm' && "base_url"[0] == 'b' && "username"[0] == 'u'
        && "password"[0] == 'p';
  }

  /** What one more field adds to the password fields met so far. */
  lemma OneMoreField(kind: Kind, i: nat, key: string)
    requires i < |FieldsOf(kind)|
    ensures var fs := FieldsOf(kind);
            && (PasswordAmong(fs[..i + 1], key) <==> PasswordAmong(fs[..i], key) || fs[i] == Field(key, Password))
            && (PasswordAmong(fs[..i + 1], key) ==> IsPassword(kind, key))
            && !(PasswordAmong(fs[..i], key) && fs[i].key == key)
  {
    var fs := FieldsOf(kind);
    if PasswordAmong(fs[..i], key) {
      var j :| 0 <= j < i && fs[..i][j] == Field(key, Password);
      assert fs[..i + 1][j] == fs[j] == Field(key, Password);
      FieldsDistinct(kind, j, i);
    }
    if fs[i] == Field(key, Password) {
      assert fs[..i + 1][i] == Field(key, Password);
    }
    if PasswordAmong(fs[..i + 1], key) {
      var j :| 0 <= j < i + 1 && fs[..i + 1][j] == Field(key, Password);
      assert fs[j] == Field(key, Password);
      assert j < i ==> fs[..i][j] == Field(key, Password);
    }
  }

  // ---- the merge, value by value --------------------------------------------

  /** A wrapped password that opens is shown opened; everything else as stored. */
  function PlainValue(c: Cipher, key: Option<Key>, kind: Kind, k: string, v: Value): Value {
    if key.Some? && IsPassword(kind, k) && v.Str? && IsEncrypted(v.text) && Decrypt(c, key.value, v.text).Some?
    then Str(Decrypt(c, key.value, v.text).value)
    else v
  }

  function Plain(c: Cipher, key: Option<Key>, kind: Kind, config: Config): Config {
    map k | k in config :: PlainValue(c, key, kind, k, config[k])
  }

  predicate NeedsSeal(key: Option<Key>, kind: Kind, k: string, v: Value) {
    key.Some? && IsPassword(kind, k) && v.Str? && v.text != "" && !IsEncrypted(v.text)
  }

  function SealedValue(c: Cipher, key: Option<Key>, kind: Kind, nonces: Nonces, k: string, v: Value): Value {
    if NeedsSeal(key, kind, k, v) && nonces(k).Some? then Str(Encrypt(c, key.value, nonces(k).value, v.text)) else v
  }

  function Sealed(c: Cipher, key: Option<Key>, kind: Kind, nonces: Nonces, config: Config): Config {
    map k | k in config :: SealedValue(c, key, kind, nonces, k, config[k])
  }

  predicate SealStuck(key: Option<Key>, kind: Kind, nonces: Nonces, k: string, v: Value) {
    NeedsSeal(key, kind, k, v) && nonces(k).None?
  }

  /** The secrets among the first `i` fields are wrapped and the rest of the config is as it was. */
  ghost predicate SealedUpTo(c: Cipher, key: Option<Key>, kind: Kind, nonces: Nonces, plain: Config, config: Config,
      i: nat)
    requires i <= |FieldsOf(kind)|
  {
    && config.Keys == plain.Keys
    && forall k | k in plain ::
         if PasswordAmong(FieldsOf(kind)[..i], k)
         then config[k] == SealedValue(c, key, kind, nonces, k, plain[k]) && !SealStuck(key, kind, nonces, k, plain[k])
         else config[k] == plain[k]
  }

  lemma SealOneMore(c: Cipher, key: Option<Key>, kind: Kind, nonces: Nonces, plain: Config, config: Config, i: nat)
    requires i < |FieldsOf(kind)| && SealedUpTo(c, key, kind, nonces, plain, config, i)
    ensures var f := FieldsOf(kind)[i];
            var reached := f.fieldType == Password && f.key in plain;
            && (reached ==> config[f.key] == plain[f.key] && IsPassword(kind, f.key))
            && (!reached ==> SealedUpTo(c, key, kind, nonces, plain, config, i + 1))
            && (reached && !SealStuck(key, kind, nonces, f.key, plain[f.key]) ==>
                  SealedUpTo(c, key, kind, nonces, plain,
                    config[f.key := SealedValue(c, key, kind, nonces, f.key, plain[f.key])], i + 1))
  {
    hide FieldsOf;
    var f := FieldsOf(kind)[i];
    forall k | k in plain { OneMoreField(kind, i, k); }
    if f.fieldType == Password && f.key in plain {
      assert f == Field(f.key, Password);
      assert !PasswordAmong(FieldsOf(kind)[..i], f.key);
    }
  }

  predicate SealFails(key: Option<Key>, kind: Kind, nonces: Nonces, config: Config) {
    exists k | k in config :: SealStuck(key, kind, nonces, k, config[k])
  }

  /** What a patch leaves under one key: the sentinel keeps, an empty string deletes, anything else replaces. */
  function MergedAt(sentinel: string, config: Config, patch: Config, k: string): Option<Value> {
    var was := if k in config then Some(config[k]) else None;
    if k !in patch || patch[k] == Str(sentinel) then was
    else if patch[k] == Str("") then None
    else Some(patch[k])
  }

  function Merged(sentinel: string, config: Config, patch: Config): Config {
    map k | k in config.Keys + patch.Keys && MergedAt(sentinel, config, patch, k).Some?
      :: MergedAt(sentinel, config, patch, k).value
  }

  function Masked(sentinel: string, kind: Kind, config: Config): Config {
    map k | k in config ::
      if !IsSecretField(kind, k) then config[k]
      else if config[k].Str? && config[k].text != "" then Str(sentinel)
      else Str("")
  }

  function Current(rows: Rows, kind: Kind): Row {
    if kind in rows then rows[kind] else Row(false, map[])
  }

  function MergedConfig(c: Cipher, key: Option<Key>, sentinel: string, rows: Rows, kind: Kind, patch: Patch): Config {
    Merged(sentinel, Plain(c, key, kind, Current(rows, kind).config), patch.config)
  }

  /** The row a patch writes. */
  function Written(c: Cipher, key: Option<Key>, sentinel: string, rows: Rows, kind: Kind, patch: Patch,
      nonces: Nonces): Row {
    Row(if patch.enabled.Some? then patch.enabled.value else Current(rows, kind).enabled,
        Sealed(c, key, kind, nonces, MergedConfig(c, key, sentinel, rows, kind, patch)))
  }

  // ---- the store -----------------------------------------------------------

  class Store {
    const cipher: Cipher
    const key: Option<Key>
    const sentinel: string
    var rows: Rows

    constructor (cipher: Cipher, key: Option<Key>, hex: string, rows: Rows)
      ensures this.cipher == cipher && this.key == key && sentinel == "redacted:" + hex && sentinel != ""
      ensures this.rows == rows
    {
      this.cipher := cipher;
      this.key := key;
      this.sentinel := "redacted:" + hex;
      this.rows := rows;
    }

    /** The config of a row just read, its secrets opened field by field. */
    method DecryptSecrets(kind: Kind, stored: Config) returns (config: Config)
      ensures config == Plain(cipher, key, kind, stored)
    {
      config := stored;
      if key.None? {
        return;
      }
      var fields := FieldsOf(kind);
      var i := 0;
      while i < |fields|
        invariant 0 <= i <= |fields|
        invariant config.Keys == stored.Keys
        invariant forall k | k in stored ::
            config[k] == if PasswordAmong(fields[..i], k) then PlainValue(cipher, key, kind, k, stored[k])
                else stored[k]
      {
        var f := fields[i];
        forall k | k in stored { OneMoreField(kind, i, k); }
        if f.fieldType == Password && f.key in config && config[f.key].Str? && IsEncrypted(config[f.key].text) {
          var plain := Decrypt(cipher, key.value, config[f.key].text);
          if plain.Some? {
            config := config[f.key := Str(plain.value)];
          }
        }
        i := i + 1;
      }
      assert fields[..i] == fields;
    }

    /** Wraps the secrets field by field; false when randomness failed. */
    method EncryptSecrets(kind: Kind, plain: Config, nonces: Nonces) returns (ok: bool, config: Config)
      ensures ok <==> !SealFails(key, kind, nonces, plain)
      ensures ok ==> config == Sealed(cipher, key, kind, nonces, plain)
    {
      hide Encrypt, FieldsOf;
      ok, config := true, plain;
      if key.None? {
        return;
      }
      var fields := FieldsOf(kind);
      var i := 0;
      while i < |fields|
        invariant 0 <= i <= |fields|
        invariant SealedUpTo(cipher, key, kind, nonces, plain, config, i)
      {
        var f := fields[i];
        SealOneMore(cipher, key, kind, nonces, plain, config, i);
        if f.fieldType == Password && f.key in config && config[f.key].Str?
           && config[f.key].text != "" && !IsEncrypted(config[f.key].text) {
          var nonce := nonces(f.key);
          if nonce.None? {
            assert SealStuck(key, kind, nonces, f.key, plain[f.key]);
            return false, config;
          }
          config := config[f.key := Str(Encrypt(cipher, key.value, nonce.value, config[f.key].text))];
        }
        i := i + 1;
      }
      assert fields[..i] == fields;
    }

    method Get(kind: Kind) returns (r: Option<Row>)
      ensures r.Some? <==> kind in rows
      ensures r.Some? ==> r.value == Row(rows[kind].enabled, Plain(cipher, key, kind, rows[kind].config))
    {
      if kind !in rows {
        return None;
      }
      var config := DecryptSecrets(kind, rows[kind].config);
      r := Some(Row(rows[kind].enabled, config));
    }

    method Mask(kind: Kind, config: Config) returns (masked: Config)
      ensures masked == Masked(sentinel, kind, config)
    {
      masked := map[];
      var keys := config.Keys;
      while keys != {}
        invariant keys <= config.Keys && masked.Keys == config.Keys - keys
        invariant forall k | k in masked :: masked[k] == Masked(sentinel, kind, config)[k]
        decreases |keys|
      {
        var k :| k in keys;
        keys := keys - {k};
        if IsSecretField(kind, k) {
          if config[k].Str? && config[k].text != "" {
            masked := masked[k := Str(sentinel)];
          } else {
            masked := masked[k := Str("")];
          }
        } else {
          masked := masked[k := config[k]];
        }
      }
    }

    /** The patch loop: it visits the keys in any order, and the outcome does not depend on it. */
    method MergePatch(base: Config, patch: Config) returns (config: Config)
      requires sentinel != ""
      ensures config == Merged(sentinel, base, patch)
    {
      config := base;
      var keys := patch.Keys;
      while keys != {}
        invariant keys <= patch.Keys
        invariant forall k | k in keys :: (k in config <==> k in base) && (k in config ==> config[k] == base[k])
        invariant forall k | k !in keys :: k in config <==> MergedAt(sentinel, base, patch, k).Some?
        invariant forall k | k !in keys && k in config :: config[k] == MergedAt(sentinel, base, patch, k).value
        decreases |keys|
      {
        var k :| k in keys;
        keys := keys - {k};
        var v := patch[k];
        if v == Str(sentinel) {
        } else if v == Str("") {
          config := config - {k};
        } else {
          config := config[k := v];
        }
      }
      assert config.Keys == Merged(sentinel, base, patch).Keys;
    }

    /** A failed read, wrap or write changes nothing; a failed read after the write reports an
        error all the same. */
    method Upsert(kind: Kind, patch: Patch, nonces: Nonces, readFails: bool, writeFails: bool, rereadFails: bool)
      returns (r: Option<Row>)
      requires sentinel != ""
      modifies this
      ensures var fails := readFails || writeFails
                || SealFails(key, kind, nonces, MergedConfig(cipher, key, sentinel, old(rows), kind, patch));
              && rows == (if fails then old(rows)
                          else old(rows)[kind := Written(cipher, key, sentinel, old(rows), kind, patch, nonces)])
              && (r.Some? <==> !fails && !rereadFails)
              && (r.Some? ==> r.value == Row(rows[kind].enabled, Plain(cipher, key, kind, rows[kind].config)))
    {
      if readFails {
        return None;
      }
      var current := Get(kind);
      var config: Config := map[];
      var enabled := false;
      if current.Some? {
        config, enabled := current.value.config, current.value.enabled;
      }
      assert config == Plain(cipher, key, kind, Current(rows, kind).config);
      if patch.enabled.Some? {
        enabled := patch.enabled.value;
      }
      config := MergePatch(config, patch.config);
      var ok, wrapped := EncryptSecrets(kind, config, nonces);
      if !ok || writeFails {
        return None;
      }
      rows := rows[kind := Row(enabled, wrapped)];
      if rereadFails {
        return None;
      }
      r := Get(kind);
    }
  }
}
