/** Snapshot file names: what Snapshot writes and what List reads back out of them. */
module BackupNames {
  const PRE_MIGRATION := "pre-migration"
  const MANUAL := "manual"
  const NIGHTLY := "nightly"
  const SUFFIX := ".dump"

  predicate LabelChar(ch: char) {
    'a' <= ch <= 'z' || '0' <= ch <= '9' || ch == '-' || ch == '.'
  }

  /** Character by character; `lowered` is the label after strings.ToLower. */
  function Sanitized(lowered: string): string {
    if lowered == "" then "untagged"
    else seq(|lowered|, i requires 0 <= i < |lowered| => if LabelChar(lowered[i]) then lowered[i] else '-')
  }

  method SanitizeLabel(lowered: string) returns (out: string)
    ensures out == Sanitized(lowered)
    ensures lowered == "" ==> out == "untagged"
    ensures lowered != "" ==>
              |out| == |lowered|
              && forall i | 0 <= i < |lowered| ::
                   var ch := lowered[i];
                   out[i] == if 'a' <= ch <= 'z' || '0' <= ch <= '9' || ch == '-' || ch == '.' then ch else '-'
    ensures out != "" && forall i | 0 <= i < |out| :: LabelChar(out[i])
    ensures (forall i | 0 <= i < |lowered| :: LabelChar(lowered[i])) && lowered != "" ==> out == lowered
  {
    out := "";
    for i := 0 to |lowered|
      invariant |out| == i
      invariant forall j | 0 <= j < i :: out[j] == if LabelChar(lowered[j]) then lowered[j] else '-'
    {
      if LabelChar(lowered[i]) {
        out := out + [lowered[i]];
      } else {
        out := out + "-";
      }
    }
    if out == "" {
      out := "untagged";
    }
  }

  function FileName(stamp: string, reason: string, tag: string): string {
    stamp + "_" + reason + "_" + tag + SUFFIX
  }

  /** The shape of a name: stamp, reason and label, in that order. */
  lemma NamedAsOnDisk()
    ensures FileName("20250101T000000Z", NIGHTLY, "v1") == "20250101T000000Z_nightly_v1.dump"
    ensures FileName("20250101T000000Z", MANUAL, "a") == "20250101T000000Z_manual_a.dump"
    ensures FileName("20250101T000000Z", PRE_MIGRATION, "a") == "20250101T000000Z_pre-migration_a.dump"
  {
  }

  predicate IsDump(name: string) {
    |name| >= |SUFFIX| && name[|name| - |SUFFIX|..] == SUFFIX
  }

  function TrimSuffix(name: string): string {
    if IsDump(name) then name[..|name| - |SUFFIX|] else name
  }

  /** The parts between the first `n - 1` underscores, the last part taking the rest. */
  function SplitN(s: string, n: nat): seq<string>
    requires n > 0
    decreases n
  {
    if n == 1 || '_' !in s then [s]
    else var i := Underscore(s); [s[..i]] + SplitN(s[i + 1..], n - 1)
  }

  function Underscore(s: string): (i: nat)
    requires '_' in s
    ensures i < |s| && s[i] == '_' && '_' !in s[..i]
  {
    if s[0] == '_' then 0 else 1 + Underscore(s[1..])
  }

  function ParseFilename(name: string): (string, string) {
    var parts := SplitN(TrimSuffix(name), 3);
    if |parts| <= 1 then ("", "")
    else if |parts| == 2 then (parts[1], "")
    else (parts[1], parts[2])
  }

  function StampOf(name: string): string {
    SplitN(TrimSuffix(name), 3)[0]
  }

  lemma {:induction false} CutAt(a: string, b: string)
    requires '_' !in a
    ensures '_' in a + "_" + b && Underscore(a + "_" + b) == |a|
  {
    if a != "" {
      assert (a + "_" + b)[1..] == a[1..] + "_" + b;
      CutAt(a[1..], b);
    }
  }

  lemma SplitAt(a: string, b: string, n: nat)
    requires n > 1 && '_' !in a
    ensures SplitN(a + "_" + b, n) == [a] + SplitN(b, n - 1)
  {
    var s := a + "_" + b;
    CutAt(a, b);
    assert s[..|a|] == a && s[|a| + 1..] == b;
  }

  /** From every name Snapshot writes, List recovers the reason and the sanitized label. */
  lemma ParseWhatSnapshotWrites(stamp: string, reason: string, tag: string)
    requires '_' !in stamp && '_' !in reason
    ensures var name := FileName(stamp, reason, tag);
            IsDump(name) && ParseFilename(name) == (reason, tag) && StampOf(name) == stamp
  {
    var name := FileName(stamp, reason, tag);
    var base := stamp + "_" + (reason + "_" + tag);
    assert name == base + SUFFIX;
    assert name[|name| - |SUFFIX|..] == SUFFIX && TrimSuffix(name) == base;
    SplitAt(stamp, reason + "_" + tag, 3);
    SplitAt(reason, tag, 2);
  }

  /** So two snapshots share a file exactly when stamp, reason and sanitized label all agree. */
  lemma NamesDistinct(stamp: string, reason: string, tag: string, stamp': string, reason': string, tag': string)
    requires '_' !in stamp + reason && '_' !in stamp' + reason'
    ensures FileName(stamp, reason, tag) == FileName(stamp', reason', tag')
            <==> stamp == stamp' && reason == reason' && tag == tag'
  {
    forall ch | ch in stamp ensures ch in stamp + reason { }
    assert '_' !in stamp && '_' !in reason && '_' !in stamp' && '_' !in reason';
    ParseWhatSnapshotWrites(stamp, reason, tag);
    ParseWhatSnapshotWrites(stamp', reason', tag');
  }
}
