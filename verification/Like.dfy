/** The search pattern of the history tool: escapeILIKE against PostgreSQL's LIKE with the
    backslash as escape character (section 9.7.1 of its documentation). */
module Like {
  function ReplaceAll(s: string, ch: char, sub: string): string {
    if s == "" then "" else (if s[0] == ch then sub else [s[0]]) + ReplaceAll(s[1..], ch, sub)
  }

  /** Three replacements, one after the other. */
  function EscapeILIKE(q: string): string {
    ReplaceAll(ReplaceAll(ReplaceAll(q, '\\', "\\\\"), '%', "\\%"), '_', "\\_")
  }

  predicate Special(ch: char) {
    ch == '\\' || ch == '%' || ch == '_'
  }

  function EscapedChar(ch: char): string {
    if Special(ch) then ['\\', ch] else [ch]
  }

  function EscapedEach(q: string): string {
    if q == "" then "" else EscapedChar(q[0]) + EscapedEach(q[1..])
  }

  lemma {:induction false} ReplaceAllAppend(a: string, b: string, ch: char, sub: string)
    ensures ReplaceAll(a + b, ch, sub) == ReplaceAll(a, ch, sub) + ReplaceAll(b, ch, sub)
  {
    if a == "" {
      assert a + b == b;
    } else {
      assert (a + b)[1..] == a[1..] + b;
      ReplaceAllAppend(a[1..], b, ch, sub);
    }
  }

  lemma ReplaceOne(c: char, ch: char, sub: string)
    ensures ReplaceAll([c], ch, sub) == if c == ch then sub else [c]
  {
    assert [c][1..] == "";
  }

  lemma ReplaceTwo(c: char, d: char, ch: char, sub: string)
    ensures ReplaceAll([c, d], ch, sub) == (if c == ch then sub else [c]) + (if d == ch then sub else [d])
  {
    assert [c, d] == [c] + [d];
    ReplaceAllAppend([c], [d], ch, sub);
    ReplaceOne(c, ch, sub);
    ReplaceOne(d, ch, sub);
  }

  /** No later replacement touches what an earlier one put in. */
  lemma EscapeOne(c: char)
    ensures EscapeILIKE([c]) == EscapedChar(c)
  {
    ReplaceOne(c, '\\', "\\\\");
    ReplaceOne(c, '%', "\\%");
    ReplaceOne(c, '_', "\\_");
    if c == '\\' {
      ReplaceTwo('\\', '\\', '%', "\\%");
      ReplaceTwo('\\', '\\', '_', "\\_");
    } else if c == '%' {
      ReplaceTwo('\\', '%', '_', "\\_");
    }
  }

  /** The three passes together escape each character by itself. */
  lemma {:induction false} EscapeIsPerCharacter(q: string)
    ensures EscapeILIKE(q) == EscapedEach(q)
  {
    if q != "" {
      var head, rest := [q[0]], q[1..];
      assert q == head + rest;
      ReplaceAllAppend(head, rest, '\\', "\\\\");
      var h1, r1 := ReplaceAll(head, '\\', "\\\\"), ReplaceAll(rest, '\\', "\\\\");
      ReplaceAllAppend(h1, r1, '%', "\\%");
      ReplaceAllAppend(ReplaceAll(h1, '%', "\\%"), ReplaceAll(r1, '%', "\\%"), '_', "\\_");
      EscapeOne(q[0]);
      EscapeIsPerCharacter(rest);
    }
  }

  // ---- the matcher ---------------------------------------------------------------

  /** ILIKE compares letters after folding their case. */
  type Fold = char -> char

  predicate Matches(fold: Fold, p: string, s: string)
    decreases |p| + |s|
  {
    if p == "" then s == ""
    else if p[0] == '%' then Matches(fold, p[1..], s) || (s != "" && Matches(fold, p, s[1..]))
    else if p[0] == '_' then s != "" && Matches(fold, p[1..], s[1..])
    else if p[0] == '\\' then |p| > 1 && s != "" && fold(s[0]) == fold(p[1]) && Matches(fold, p[2..], s[1..])
    else s != "" && fold(s[0]) == fold(p[0]) && Matches(fold, p[1..], s[1..])
  }

  /** A pattern must not end in an escape character with nothing to escape: the query fails. */
  predicate WellFormed(p: string)
    decreases |p|
  {
    p == "" || (if p[0] == '\\' then |p| > 1 && WellFormed(p[2..]) else WellFormed(p[1..]))
  }

  predicate SameFolded(fold: Fold, a: string, b: string) {
    |a| == |b| && forall i | 0 <= i < |a| :: fold(a[i]) == fold(b[i])
  }

  predicate StartsAt(fold: Fold, q: string, s: string, i: nat) {
    i + |q| <= |s| && SameFolded(fold, s[i..i + |q|], q)
  }

  /** `q` occurs in `s`, letter case aside. */
  predicate Occurs(fold: Fold, q: string, s: string) {
    exists i | 0 <= i <= |s| :: StartsAt(fold, q, s, i)
  }

  lemma EscapedHead(q: string, rest: string)
    requires q != ""
    ensures EscapedEach(q) + rest == EscapedChar(q[0]) + (EscapedEach(q[1..]) + rest)
  {
  }

  lemma {:induction false} EscapedWellFormed(q: string)
    ensures WellFormed(EscapedEach(q) + "%")
  {
    if q != "" {
      EscapedHead(q, "%");
      EscapedWellFormed(q[1..]);
      var rest := EscapedEach(q[1..]) + "%";
      assert (EscapedChar(q[0]) + rest)[|EscapedChar(q[0])|..] == rest;
    }
  }

  lemma {:induction false} PercentMatchesAll(fold: Fold, s: string)
    ensures Matches(fold, "%", s)
  {
    if s != "" { PercentMatchesAll(fold, s[1..]); }
  }

  /** Anchored at the start, the escaped query followed by % matches exactly what begins with the query. */
  lemma {:induction false} EscapedMatchesPrefix(fold: Fold, q: string, s: string)
    ensures Matches(fold, EscapedEach(q) + "%", s) <==> |q| <= |s| && SameFolded(fold, s[..|q|], q)
    decreases |q|
  {
    if q == "" {
      assert EscapedEach(q) + "%" == "%";
      PercentMatchesAll(fold, s);
    } else {
      var p, rest := EscapedEach(q) + "%", EscapedEach(q[1..]) + "%";
      EscapedHead(q, "%");
      assert p[|EscapedChar(q[0])|..] == rest;
      if s != "" {
        EscapedMatchesPrefix(fold, q[1..], s[1..]);
        PrefixStep(fold, q, s);
      }
    }
  }

  lemma PrefixStep(fold: Fold, q: string, s: string)
    requires q != "" && s != ""
    ensures |q| <= |s| && SameFolded(fold, s[..|q|], q)
            <==> fold(s[0]) == fold(q[0]) && |q[1..]| <= |s[1..]| && SameFolded(fold, s[1..][..|q| - 1], q[1..])
  {
    if |q| <= |s| {
      assert forall i | 0 <= i < |q| - 1 :: s[1..][..|q| - 1][i] == s[..|q|][i + 1] && q[1..][i] == q[i + 1];
      if fold(s[0]) == fold(q[0]) && SameFolded(fold, s[1..][..|q| - 1], q[1..]) {
        forall i | 0 <= i < |q| ensures fold(s[..|q|][i]) == fold(q[i]) {
          if i > 0 { assert fold(s[1..][..|q| - 1][i - 1]) == fold(q[1..][i - 1]); }
        }
      }
    }
  }


  lemma {:induction false} LeadingPercent(fold: Fold, p: string, s: string)
    ensures Matches(fold, "%" + p, s) <==> exists i | 0 <= i <= |s| :: Matches(fold, p, s[i..])
    decreases |s|
  {
    var pat := "%" + p;
    assert pat[1..] == p && s[0..] == s;
    if s != "" {
      LeadingPercent(fold, p, s[1..]);
      assert forall i | 0 <= i <= |s| - 1 :: s[1..][i..] == s[i + 1..];
      if i :| 0 <= i <= |s| - 1 && Matches(fold, p, s[1..][i..]) {
        assert Matches(fold, p, s[i + 1..]);
      }
      if i :| 1 <= i <= |s| && Matches(fold, p, s[i..]) {
        assert s[1..][i - 1..] == s[i..];
      }
    }
  }

  /** For every query and every text, the pattern the tool builds is well formed and matches exactly
      when the query occurs in the text. */
  lemma SearchFindsSubstring(fold: Fold, q: string, s: string)
    ensures WellFormed("%" + EscapeILIKE(q) + "%")
    ensures Matches(fold, "%" + EscapeILIKE(q) + "%", s) <==> Occurs(fold, q, s)
  {
    EscapeIsPerCharacter(q);
    var p := EscapedEach(q) + "%";
    assert "%" + EscapeILIKE(q) + "%" == "%" + p && ("%" + p)[1..] == p;
    EscapedWellFormed(q);
    LeadingPercent(fold, p, s);
    forall i | 0 <= i <= |s|
      ensures Matches(fold, p, s[i..]) <==> StartsAt(fold, q, s, i)
    {
      EscapedMatchesPrefix(fold, q, s[i..]);
      assert i <= |s| - |q| ==> s[i..][..|q|] == s[i..i + |q|];
    }
  }

  /** What the escape is for: as a pattern of its own, `50%` is found in `500`. */
  lemma UnescapedFindsMore()
    ensures var id := (ch: char) => ch;
            Matches(id, "%" + "50%" + "%", "500") && !Occurs(id, "50%", "500")
  {
    var id := (ch: char) => ch;
    assert "%" + "50%" + "%" == "%50%%";
    assert "%50%%"[1..] == "50%%" && "50%%"[1..] == "0%%" && "0%%"[1..] == "%%" && "%%"[1..] == "%";
    assert "500"[1..] == "00" && "00"[1..] == "0";
    PercentMatchesAll(id, "0");
    assert "500"[0..3] == "500" && id("500"[2]) != id("50%"[2]);
    assert !StartsAt(id, "50%", "500", 0);
  }
}
