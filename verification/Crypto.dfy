/** The enc:v1: envelope over an abstract authenticated cipher and an abstract base64. */
module Crypto {
  import opened Wrappers
  import opened Utf8

  type Key = seq<byte>

  const NONCE_SIZE := 12
  const KEY_SIZE := 32
  const PREFIX := "enc:v1:"

  datatype Cipher = Cipher(
    seal: (Key, seq<byte>, string) -> seq<byte>,
    open: (Key, seq<byte>, seq<byte>) -> Option<string>,
    toBase64: seq<byte> -> string,
    fromBase64: string -> Option<seq<byte>>)

  /** Opening undoes sealing under the same key and fails under any other; nothing else opens;
      a ciphertext is no shorter than its text; base64 decodes back and never to more than its length. */
  ghost predicate Lawful(c: Cipher) {
    && (forall k: Key, n: seq<byte>, p: string :: c.open(k, n, c.seal(k, n, p)) == Some(p))
    && (forall k: Key, n: seq<byte>, p: string :: |p| <= |c.seal(k, n, p)|)
    && (forall k: Key, n: seq<byte>, ct: seq<byte> ::
          c.open(k, n, ct).Some? ==> ct == c.seal(k, n, c.open(k, n, ct).value))
    && (forall k: Key, l: Key, n: seq<byte>, p: string {:trigger c.open(l, n, c.seal(k, n, p))} ::
          k != l && |k| == |l| == KEY_SIZE ==> c.open(l, n, c.seal(k, n, p)) == None)
    && (forall b: seq<byte> :: c.fromBase64(c.toBase64(b)) == Some(b))
    && (forall s: string :: c.fromBase64(s).Some? ==> |c.fromBase64(s).value| <= |s|)
  }

  predicate IsEncrypted(s: string) {
    PREFIX <= s
  }

  function Encrypt(c: Cipher, k: Key, nonce: seq<byte>, plain: string): string {
    PREFIX + c.toBase64(nonce + c.seal(k, nonce, plain))
  }

  /** `None` is an error: no envelope, bad base64, too short, or not this key's. */
  function Decrypt(c: Cipher, k: Key, s: string): Option<string> {
    if !IsEncrypted(s) then None
    else
      match c.fromBase64(s[|PREFIX|..])
      case None => None
      case Some(blob) => if |blob| < NONCE_SIZE then None else c.open(k, blob[..NONCE_SIZE], blob[NONCE_SIZE..])
  }

  /** EncryptString and DecryptString; `None` for the key is plaintext mode. */
  function EncryptString(c: Cipher, k: Option<Key>, nonce: seq<byte>, plain: string): string {
    if k.None? || IsEncrypted(plain) then plain else Encrypt(c, k.value, nonce, plain)
  }

  function DecryptString(c: Cipher, k: Option<Key>, v: string): Option<string> {
    if k.None? || !IsEncrypted(v) then Some(v) else Decrypt(c, k.value, v)
  }

  lemma EnvelopeOpens(c: Cipher, k: Key, nonce: seq<byte>, plain: string)
    requires Lawful(c) && |nonce| == NONCE_SIZE
    ensures IsEncrypted(Encrypt(c, k, nonce, plain)) && "enc:v1:" <= Encrypt(c, k, nonce, plain)
    ensures Decrypt(c, k, Encrypt(c, k, nonce, plain)) == Some(plain)
  {
    var blob := nonce + c.seal(k, nonce, plain);
    var s := Encrypt(c, k, nonce, plain);
    assert s[..|PREFIX|] == PREFIX && s[|PREFIX|..] == c.toBase64(blob);
    assert blob[..NONCE_SIZE] == nonce && blob[NONCE_SIZE..] == c.seal(k, nonce, plain);
  }

  lemma EnvelopeLockedToKey(c: Cipher, k: Key, l: Key, nonce: seq<byte>, plain: string)
    requires Lawful(c) && |nonce| == NONCE_SIZE && k != l && |k| == |l| == KEY_SIZE
    ensures Decrypt(c, l, Encrypt(c, k, nonce, plain)) == None
  {
    var blob := nonce + c.seal(k, nonce, plain);
    var s := Encrypt(c, k, nonce, plain);
    assert s[..|PREFIX|] == PREFIX && s[|PREFIX|..] == c.toBase64(blob);
    assert blob[..NONCE_SIZE] == nonce && blob[NONCE_SIZE..] == c.seal(k, nonce, plain);
  }

  /** An envelope is longer than what is in it, so no string decrypts to itself. */
  lemma DecryptShrinks(c: Cipher, k: Key, s: string)
    requires Lawful(c) && Decrypt(c, k, s).Some?
    ensures |Decrypt(c, k, s).value| < |s|
  {
    var blob := c.fromBase64(s[|PREFIX|..]).value;
    var n, ct := blob[..NONCE_SIZE], blob[NONCE_SIZE..];
    assert ct == c.seal(k, n, c.open(k, n, ct).value);
  }

  /** Under one key, a string comes back through both functions exactly when it did not look
      encrypted to begin with; such a string is stored as it is and then fails to decrypt, or
      decrypts to something shorter. */
  lemma StringRoundTripIff(c: Cipher, k: Key, nonce: seq<byte>, plain: string)
    requires Lawful(c) && |nonce| == NONCE_SIZE
    ensures DecryptString(c, Some(k), EncryptString(c, Some(k), nonce, plain)) == Some(plain) <==> !IsEncrypted(plain)
  {
    if IsEncrypted(plain) {
      if Decrypt(c, k, plain).Some? { DecryptShrinks(c, k, plain); }
    } else {
      EnvelopeOpens(c, k, nonce, plain);
    }
  }

  // ---- the laws can be met ---------------------------------------------------

  function AsText(b: seq<byte>): string {
    seq(|b|, i requires 0 <= i < |b| => b[i] as char)
  }

  function AsBytes(s: string): Option<seq<byte>> {
    if forall i | 0 <= i < |s| :: s[i] as int < 256 then
      Some(seq(|s|, i requires 0 <= i < |s| && s[i] as int < 256 => s[i] as byte))
    else None
  }

  function ToySeal(k: Key, n: seq<byte>, p: string): seq<byte> {
    k + Encode(p)
  }

  function ToyOpen(k: Key, n: seq<byte>, ct: seq<byte>): Option<string> {
    if k <= ct && Encode(Decoded(ct[|k|..])) == ct[|k|..] then Some(Decoded(ct[|k|..])) else None
  }

  lemma {:induction false} EncodeLength(s: string)
    ensures |s| <= |Encode(s)|
    decreases |s|
  {
    if s != "" { EncodeLength(s[1..]); }
  }

  /** A cipher (of no secrecy) that meets the laws: the results below are about something. */
  lemma LawfulCipherExists()
    ensures Lawful(Cipher(ToySeal, ToyOpen, AsText, AsBytes))
  {
    var c := Cipher(ToySeal, ToyOpen, AsText, AsBytes);
    forall k: Key, n: seq<byte>, p: string
      ensures c.open(k, n, c.seal(k, n, p)) == Some(p) && |p| <= |c.seal(k, n, p)|
    {
      RoundTrip(p);
      EncodeLength(p);
      assert (k + Encode(p))[|k|..] == Encode(p);
    }
    forall k: Key, n: seq<byte>, ct: seq<byte> | c.open(k, n, ct).Some?
      ensures ct == c.seal(k, n, c.open(k, n, ct).value)
    {
      assert ct == ct[..|k|] + ct[|k|..];
    }
    forall k: Key, l: Key, n: seq<byte>, p: string | k != l && |k| == |l| == KEY_SIZE
      ensures c.open(l, n, c.seal(k, n, p)) == None
    {
      assert (k + Encode(p))[..|k|] == k;
    }
    forall b: seq<byte> ensures c.fromBase64(c.toBase64(b)) == Some(b) {
      assert AsBytes(AsText(b)).value == b;
    }
  }
}
