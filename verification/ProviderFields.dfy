/** Which settings are secret, key by key, and what a patch of them stores and the browser is shown. */
module ProviderFields {
  import opened Wrappers
  import opened Crypto
  import opened Providers
  import opened ProviderTheorems

  /** The API keys of the three model providers, and the password of the shop account. */
  predicate IsCredential(kind: Kind, k: string) {
    ((kind == Anthropic || kind == OpenAI || kind == OpenAICompat) && k == "api_key")
    || (kind == Willys && k == "password")
  }

  /** The other settings of the known kinds. */
  predicate IsSetting(kind: Kind, k: string) {
    || ((kind == Anthropic || kind == OpenAI) && k == "model")
    || (kind == OpenAICompat && (k == "base_url" || k == "model"))
    || (kind == Willys && k == "username")
  }

  lemma KeysDiffer()
    ensures "api_key" != "model" && "api_key" != "base_url" && "base_url" != "model" && "username" != "password"
    ensures "api_key" != "username" && "api_key" != "password" && "model" != "password" && "base_url" != "password"
  {
    assert "api_key"[0] == 'a' && "model"[0] == 'm' && "base_url"[0] == 'b' && "username"[0] == 'u'
        && "password"[0] == 'p';
  }

  /** Exactly the credentials are encrypted at rest. Shown to the browser masked are those, and any key a
      kind does not list that goes by one of four names. */
  lemma CredentialsAreSecret(kind: Kind, k: string)
    ensures IsPassword(kind, k) <==> IsCredential(kind, k)
    ensures IsSecretField(kind, k) <==>
              IsCredential(kind, k) || (!IsSetting(kind, k) && k in ["api_key", "password", "token", "secret"])
  {
    KeysDiffer();
    var fs := FieldsOf(kind);
    match kind {
      case Anthropic => assert fs[0] == Field("api_key", Password) && fs[1] == Field("model", Select);
      case OpenAI => assert fs[0] == Field("api_key", Password) && fs[1] == Field("model", Select);
      case OpenAICompat =>
        assert fs[0] == Field("base_url", Text) && fs[1] == Field("api_key", Password) && fs[2] == Field("model", Text);
      case Willys => assert fs[0] == Field("username", Text) && fs[1] == Field("password", Password);
      case Unknown(_) =>
    }
  }

  /** A credential sent as a string that is neither empty nor the mask nor an envelope: under a master key
      it is stored as an envelope that opens to it and to nothing else, and the browser is shown the mask. */
  lemma CredentialIsSealed(c: Cipher, key: Key, sentinel: string, rows: Rows, kind: Kind, patch: Patch, nonces: Nonces,
                           k: string, text: string)
    requires Lawful(c) && Draws(nonces) && IsCredential(kind, k)
    requires k in patch.config && patch.config[k] == Str(text)
    requires text != "" && text != sentinel && !("enc:v1:" <= text)
    requires !SealFails(Some(key), kind, nonces, MergedConfig(c, Some(key), sentinel, rows, kind, patch))
    ensures var config := Written(c, Some(key), sentinel, rows, kind, patch, nonces).config;
            && k in config && config[k].Str? && "enc:v1:" <= config[k].text && config[k] != Str(text)
            && Decrypt(c, key, config[k].text) == Some(text)
            && Plain(c, Some(key), kind, config)[k] == Str(text)
            && Masked(sentinel, kind, Plain(c, Some(key), kind, config))[k] == Str(sentinel)
            && Masked(sentinel, kind, config)[k] == Str(sentinel)
  {
    CredentialsAreSecret(kind, k);
    hide FieldsOf, IsPassword, IsSecretField;
    var merged := MergedConfig(c, Some(key), sentinel, rows, kind, patch);
    assert k in merged && merged[k] == Str(text);
    assert !SealStuck(Some(key), kind, nonces, k, merged[k]);
    EnvelopeOpens(c, key, nonces(k).value, text);
    DecryptShrinks(c, key, Encrypt(c, key, nonces(k).value, text));
  }

  /** Without a master key it is stored as sent, and masked all the same. */
  lemma CredentialWithoutKey(c: Cipher, sentinel: string, rows: Rows, kind: Kind, patch: Patch, nonces: Nonces,
                             k: string, text: string)
    requires IsCredential(kind, k) && k in patch.config && patch.config[k] == Str(text)
    requires text != "" && text != sentinel
    ensures var config := Written(c, None, sentinel, rows, kind, patch, nonces).config;
            && k in config && config[k] == Str(text)
            && Masked(sentinel, kind, Plain(c, None, kind, config))[k] == Str(sentinel)
  {
    CredentialsAreSecret(kind, k);
    hide FieldsOf, IsPassword, IsSecretField;
  }

  /** Any other setting is stored, read back and shown as sent. */
  lemma SettingAsSent(c: Cipher, key: Option<Key>, sentinel: string, rows: Rows, kind: Kind, patch: Patch,
                      nonces: Nonces, k: string)
    requires IsSetting(kind, k) && k in patch.config && patch.config[k] != Str("") && patch.config[k] != Str(sentinel)
    ensures var config := Written(c, key, sentinel, rows, kind, patch, nonces).config;
            && k in config && config[k] == patch.config[k] && Plain(c, key, kind, config)[k] == patch.config[k]
            && Masked(sentinel, kind, Plain(c, key, kind, config))[k] == patch.config[k]
  {
    KeysDiffer();
    CredentialsAreSecret(kind, k);
    hide FieldsOf, IsPassword, IsSecretField;
  }

  /** An empty string deletes the key, whatever it is; the row is switched on or off as sent, and stays as
      it was - off if it is new - when that was not sent. */
  lemma ClearedAndSwitched(c: Cipher, key: Option<Key>, sentinel: string, rows: Rows, kind: Kind, patch: Patch,
                           nonces: Nonces)
    requires sentinel != ""
    ensures var row := Written(c, key, sentinel, rows, kind, patch, nonces);
            && (forall k | k in patch.config && patch.config[k] == Str("") :: k !in row.config)
            && (patch.enabled.Some? ==> row.enabled == patch.enabled.value)
            && (patch.enabled.None? ==> row.enabled == (kind in rows && rows[kind].enabled))
  {
    hide FieldsOf, IsPassword;
  }
}
