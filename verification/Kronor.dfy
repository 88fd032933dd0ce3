/** Amounts of money as text: formatKronor prints them for the cart, parseKronor reads the shop's. */
module Kronor {
  import opened Decimals
  import opened Seqs
  import opened Wrappers

  // ---- formatKronor --------------------------------------------------------------

  function Abs(n: int): nat {
    if n < 0 then -n else n
  }

  /** toFixed(2) of a whole number of öre. */
  function ToFixed2(ore: int): string {
    (if ore < 0 then "-" else "") + Decimal(Abs(ore) / 100) + "." + Digits(Abs(ore) % 100, 2)
  }

  function ReplaceFirst(s: string, ch: char, sub: char): string {
    if s == "" then "" else if s[0] == ch then [sub] + s[1..] else [s[0]] + ReplaceFirst(s[1..], ch, sub)
  }

  predicate WordAt(s: string, i: int) {
    0 <= i < |s| && (IsDigit(s[i]) || 'a' <= s[i] <= 'z' || 'A' <= s[i] <= 'Z' || s[i] == '_')
  }

  predicate DigitAt(s: string, i: int) {
    0 <= i < |s| && IsDigit(s[i])
  }

  /** `g` groups of three digits start at `i` and no digit follows them. */
  predicate GroupsAhead(s: string, i: nat, g: nat) {
    (forall j | i <= j < i + 3 * g :: DigitAt(s, j)) && !DigitAt(s, i + 3 * g)
  }

  /** The pattern \B(?=(\d{3})+(?!\d)) matches, empty, at `i`. */
  ghost predicate Gap(s: string, i: nat) {
    WordAt(s, i - 1) == WordAt(s, i) && exists g: nat :: g >= 1 && GroupsAhead(s, i, g)
  }

  /** A space at every match from `i` on. */
  ghost function Spaced(s: string, i: nat): string
    requires i <= |s|
    decreases |s| - i
  {
    (if Gap(s, i) then " " else "") + (if i == |s| then "" else [s[i]] + Spaced(s, i + 1))
  }

  ghost function FormatKronor(ore: int): string {
    Spaced(ReplaceFirst(ToFixed2(ore), '.', ','), 0) + " kr"
  }

  // ---- parseKronor ----------------------------------------------------------------

  function Kept(s: string): string {
    if s == "" then ""
    else (if IsDigit(s[0]) || s[0] == ',' || s[0] == '.' then [s[0]] else "") + Kept(s[1..])
  }

  function Without(s: string, ch: char): string {
    if s == "" then "" else (if s[0] == ch then "" else [s[0]]) + Without(s[1..], ch)
  }

  function Replaced(s: string, ch: char, sub: char): string {
    if s == "" then "" else [if s[0] == ch then sub else s[0]] + Replaced(s[1..], ch, sub)
  }

  predicate AllDigits(s: string) {
    forall i | 0 <= i < |s| :: IsDigit(s[i])
  }

  /** The number a string of digits and dots stands for: one dot at most, one digit at least. */
  function ParseFloat(s: string): Option<real> {
    if AllDigits(s) then if s == "" then None else Some(Value(s) as real)
    else
      var p := FirstOther(s, 0);
      if s[p] == '.' && AllDigits(s[p + 1..]) && |s| > 1 then Some(Fraction(s[..p], s[p + 1..])) else None
  }

  function Fraction(whole: string, decimals: string): real
    requires AllDigits(whole) && AllDigits(decimals)
  {
    Value(whole) as real + Value(decimals) as real / Power(|decimals|)
  }

  function FirstOther(s: string, i: nat): (p: nat)
    requires i <= |s| && !AllDigits(s) && AllDigits(s[..i])
    ensures p < |s| && !IsDigit(s[p]) && AllDigits(s[..p])
    decreases |s| - i
  {
    if i < |s| && !IsDigit(s[i]) then i else FirstOther(s, i + 1)
  }

  function Power(w: nat): (r: real)
    ensures r >= 1.0
  {
    if w == 0 then 1.0 else 10.0 * Power(w - 1)
  }

  /** The amount in kronor; 0 when the string holds none. */
  function ParseKronor(s: string): real {
    var cleaned := Replaced(Without(Kept(s), '.'), ',', '.');
    if cleaned == "" then 0.0
    else if ParseFloat(cleaned).None? then 0.0 else ParseFloat(cleaned).value
  }

  // ---- what parsing depends on --------------------------------------------------------

  /** The digits and commas of a string, in order. */
  function Core(s: string): string {
    if s == "" then "" else (if IsDigit(s[0]) || s[0] == ',' then [s[0]] else "") + Core(s[1..])
  }

  lemma {:induction false} CoreIsKept(s: string)
    ensures Without(Kept(s), '.') == Core(s)
  {
    if s != "" {
      CoreIsKept(s[1..]);
      if IsDigit(s[0]) || s[0] == ',' || s[0] == '.' {
        assert Kept(s)[1..] == Kept(s[1..]);
      } else {
        assert Kept(s) == Kept(s[1..]);
      }
    }
  }

  lemma {:induction false} CoreAppend(a: string, b: string)
    ensures Core(a + b) == Core(a) + Core(b)
  {
    if a == "" {
      assert a + b == b;
    } else {
      FirstOf(a, b);
      CoreAppend(a[1..], b);
      Assoc(if IsDigit(a[0]) || a[0] == ',' then [a[0]] else "", Core(a[1..]), Core(b));
    }
  }

  /** Two strings with the same digits and commas mean the same amount. */
  lemma CoreDecides(s: string, t: string)
    requires Core(s) == Core(t)
    ensures ParseKronor(s) == ParseKronor(t)
  {
    CoreIsKept(s);
    CoreIsKept(t);
  }

  /** Any character but a digit or a comma can be inserted anywhere - a dot included. */
  lemma InsertionNeutral(a: string, ch: char, b: string)
    requires !IsDigit(ch) && ch != ','
    ensures ParseKronor(a + [ch] + b) == ParseKronor(a + b)
  {
    CoreAppend(a + [ch], b);
    CoreAppend(a, [ch]);
    CoreAppend(a, b);
    CoreDecides(a + [ch] + b, a + b);
  }

  // ---- the round trip -----------------------------------------------------------------

  lemma {:induction false} CoreOfSpaced(s: string, i: nat)
    requires i <= |s|
    ensures Core(Spaced(s, i)) == Core(s[i..])
    decreases |s| - i
  {
    var gap := if Gap(s, i) then " " else "";
    assert Core(gap) == "";
    if i < |s| {
      CoreOfSpaced(s, i + 1);
      assert s[i..][1..] == s[i + 1..];
      CoreAppend(gap, [s[i]] + Spaced(s, i + 1));
      assert ([s[i]] + Spaced(s, i + 1))[1..] == Spaced(s, i + 1);
    } else {
      assert gap + "" == gap && s[i..] == "";
    }
  }

  lemma {:induction false} CoreOfDigits(s: string)
    requires AllDigits(s)
    ensures Core(s) == s
  {
    if s != "" { CoreOfDigits(s[1..]); }
  }

  lemma {:induction false} ReplaceTheDot(a: string, b: string)
    requires '.' !in a
    ensures ReplaceFirst(a + "." + b, '.', ',') == a + "," + b
  {
    var s := a + "." + b;
    if a == "" {
      assert s[1..] == b;
    } else {
      assert s[1..] == a[1..] + "." + b;
      ReplaceTheDot(a[1..], b);
    }
  }

  lemma {:induction false} ReplacedAppend(a: string, b: string)
    ensures Replaced(a + b, ',', '.') == Replaced(a, ',', '.') + Replaced(b, ',', '.')
  {
    if a == "" {
      assert a + b == b;
    } else {
      FirstOf(a, b);
      ReplacedAppend(a[1..], b);
    }
  }

  lemma ReplacedDigits(a: string, b: string)
    requires AllDigits(a) && AllDigits(b)
    ensures Replaced(a + "," + b, ',', '.') == a + "." + b
  {
    assert ","[1..] == "" && Replaced(",", ',', '.') == ".";
    NothingReplaced(a);
    NothingReplaced(b);
    hide Replaced, AllDigits;
    ReplacedAppend(a + ",", b);
    ReplacedAppend(a, ",");
  }

  lemma {:induction false} NothingReplaced(s: string)
    requires AllDigits(s)
    ensures Replaced(s, ',', '.') == s
  {
    if s != "" { NothingReplaced(s[1..]); }
  }

  function Sign(ore: int): string {
    if ore < 0 then "-" else ""
  }

  /** The text before grouping: sign, kronor, comma, two digits of öre. */
  lemma Ungrouped(ore: int)
    ensures ReplaceFirst(ToFixed2(ore), '.', ',') ==
              Sign(ore) + Decimal(Abs(ore) / 100) + "," + Digits(Abs(ore) % 100, 2)
  {
    var front := Sign(ore) + Decimal(Abs(ore) / 100);
    assert '.' !in front by {
      forall i | 0 <= i < |front| ensures front[i] != '.' {
        if i >= |Sign(ore)| { assert front[i] == Decimal(Abs(ore) / 100)[i - |Sign(ore)|]; }
      }
    }
    ReplaceTheDot(front, Digits(Abs(ore) % 100, 2));
  }

  lemma CoreOfText(sign: string, k: string, o: string)
    requires sign in ["", "-"] && AllDigits(k) && AllDigits(o)
    ensures Core(Spaced(sign + k + "," + o, 0) + " kr") == k + "," + o
  {
    var text := sign + k + "," + o;
    CoreOfSpaced(text, 0);
    CoreAppend(Spaced(text, 0), " kr");
    assert Core(" kr") == "" by {
      assert " kr"[1..] == "kr" && "kr"[1..] == "r" && "r"[1..] == "";
    }
    CoreOfUnspaced(sign, k, o);
    assert text[0..] == text && Core(text) + "" == Core(text);
  }

  lemma CoreOfUnspaced(sign: string, k: string, o: string)
    requires sign in ["", "-"] && AllDigits(k) && AllDigits(o)
    ensures Core(sign + k + "," + o) == k + "," + o
  {
    assert Core(sign) == "" && Core(",") == ",";
    CoreAppend(sign + k + ",", o);
    CoreAppend(sign + k, ",");
    CoreAppend(sign, k);
    CoreOfDigits(k);
    CoreOfDigits(o);
    assert "" + k == k;
  }

  lemma {:induction false} FirstOtherIs(s: string, i: nat, p: nat)
    requires i <= p < |s| && AllDigits(s[..i]) && AllDigits(s[..p]) && !IsDigit(s[p])
    ensures !AllDigits(s) && FirstOther(s, i) == p
    decreases p - i
  {
    if i < p {
      assert s[..p][i] == s[i] && IsDigit(s[i]);
      assert forall j | 0 <= j < i + 1 :: s[..i + 1][j] == s[..p][j];
      FirstOtherIs(s, i + 1, p);
    }
  }

  lemma ParseOfParts(k: string, o: string)
    requires AllDigits(k) && AllDigits(o) && k != ""
    ensures ParseFloat(k + "." + o) == Some(Fraction(k, o))
  {
    var s := k + "." + o;
    assert s[|k|] == '.' && s[..|k|] == k && s[|k| + 1..] == o;
    FirstOtherIs(s, 0, |k|);
    assert FirstOther(s, 0) == |k|;
  }

  lemma ParseOfText(sign: string, k: string, o: string)
    requires sign in ["", "-"] && AllDigits(k) && AllDigits(o) && k != ""
    ensures ParseKronor(Spaced(sign + k + "," + o, 0) + " kr") == Fraction(k, o)
  {
    CoreOfText(sign, k, o);
    CoreIsKept(Spaced(sign + k + "," + o, 0) + " kr");
    ReplacedDigits(k, o);
    ParseOfParts(k, o);
  }

  lemma FractionOfOre(krona: nat, rest: nat)
    requires rest < 100
    ensures Fraction(Decimal(krona), Digits(rest, 2)) == krona as real + rest as real / 100.0
  {
    var whole, decimals := Decimal(krona), Digits(rest, 2);
    assert Value(decimals) == rest by {
      SmallPowers();
      ValueOfDigits(rest, 2);
    }
    ValueOfDecimal(krona);
    FractionOfTwo(whole, decimals);
  }

  lemma FractionOfTwo(whole: string, decimals: string)
    requires AllDigits(whole) && AllDigits(decimals) && |decimals| == 2
    ensures Fraction(whole, decimals) == Value(whole) as real + Value(decimals) as real / 100.0
  {
    assert Power(1) == 10.0 * Power(0) == 10.0;
    assert Power(2) == 10.0 * Power(1) == 100.0;
  }

  lemma ParseOfFormat(ore: int)
    ensures ParseKronor(FormatKronor(ore)) == (Abs(ore) / 100) as real + (Abs(ore) % 100) as real / 100.0
  {
    Ungrouped(ore);
    ParseOfText(Sign(ore), Decimal(Abs(ore) / 100), Digits(Abs(ore) % 100, 2));
    FractionOfOre(Abs(ore) / 100, Abs(ore) % 100);
  }

  /** Reading back what formatKronor prints gives the amount without its sign, to the öre: it is the
      amount itself if and only if that was not negative. */
  lemma FormatParsesBack(ore: int)
    ensures ParseKronor(FormatKronor(ore)) * 100.0 == Abs(ore) as real
    ensures ParseKronor(FormatKronor(ore)) * 100.0 == ore as real <==> ore >= 0
  {
    ParseOfFormat(ore);
    var krona, rest := Abs(ore) / 100, Abs(ore) % 100;
    assert Abs(ore) == 100 * krona + rest;
    assert (100 * krona + rest) as real == 100.0 * krona as real + rest as real;
  }

  // ---- the grouping -------------------------------------------------------------------

  lemma GapsInParts(sign: string, k: string, o: string, i: nat)
    requires sign in ["", "-"] && AllDigits(k) && AllDigits(o) && |o| == 2
    ensures var first, comma := |sign|, |sign| + |k|;
            Gap(sign + k + "," + o, i) <==> first < i < comma && (comma - i) % 3 == 0
  {
    var text, first, comma := sign + k + "," + o, |sign|, |sign| + |k|;
    assert text[comma] == ',' && (sign != "" ==> text[0] == '-');
    assert forall j | first <= j < comma :: text[j] == k[j - first];
    assert forall j | first <= j < comma :: DigitAt(text, j) && WordAt(text, j);
    assert !DigitAt(text, comma) && !DigitAt(text, comma + 3) && !WordAt(text, first - 1);
    if first < i < comma && (comma - i) % 3 == 0 {
      assert GroupsAhead(text, i, (comma - i) / 3);
    }
    if Gap(text, i) {
      var g: nat :| g >= 1 && GroupsAhead(text, i, g);
      assert DigitAt(text, i) && DigitAt(text, i + 1) && DigitAt(text, i + 2);
      assert i + 3 * g == comma;
    }
  }

  /** The pattern matches exactly where a multiple of three digits is left before the comma, strictly
      inside the kronor. */
  lemma GapsEveryThree(ore: int, i: nat)
    ensures var first, comma := |Sign(ore)|, |Sign(ore)| + |Decimal(Abs(ore) / 100)|;
            Gap(ReplaceFirst(ToFixed2(ore), '.', ','), i) <==> first < i < comma && (comma - i) % 3 == 0
  {
    Ungrouped(ore);
    GapsInParts(Sign(ore), Decimal(Abs(ore) / 100), Digits(Abs(ore) % 100, 2), i);
  }

  // ---- what a text is read as -----------------------------------------------------------

  /** Nothing but digits is left: whole kronor. */
  lemma WholeAmount(s: string)
    requires Core(s) != "" && AllDigits(Core(s))
    ensures ParseKronor(s) == Value(Core(s)) as real
  {
    CoreIsKept(s);
    NothingReplaced(Core(s));
  }

  /** One comma is left, and a digit on either side of it: kronor and their decimals. */
  lemma DecimalAmount(s: string, k: string, o: string)
    requires Core(s) == k + "," + o && AllDigits(k) && AllDigits(o) && k + o != ""
    ensures ParseKronor(s) == Fraction(k, o)
  {
    CoreIsKept(s);
    ReplacedDigits(k, o);
    if k != "" {
      ParseOfParts(k, o);
    } else {
      var t := k + "." + o;
      assert t[0] == '.' && t[1..] == o && t[..0] == k;
      FirstOtherIs(t, 0, 0);
    }
  }

  /** Nothing is left, or a comma alone, or two commas: no amount, which is read as zero. */
  lemma NoAmount(s: string, k: string, m: string, o: string)
    requires Core(s) in ["", ","] || (Core(s) == k + "," + m + "," + o && AllDigits(k) && AllDigits(m))
    ensures ParseKronor(s) == 0.0
  {
    CoreIsKept(s);
    if Core(s) == "," {
      assert ","[1..] == "" && Replaced(",", ',', '.') == ".";
      FirstOtherIs(".", 0, 0);
    } else if Core(s) != "" {
      ReplacedAppend(k + "," + m + ",", o);
      ReplacedAppend(k + "," + m, ",");
      ReplacedDigits(k, m);
      assert ","[1..] == "" && Replaced(",", ',', '.') == ".";
      TwoDots(k, m, Replaced(o, ',', '.'));
    }
  }

  lemma TwoDots(k: string, m: string, o: string)
    requires AllDigits(k) && AllDigits(m)
    ensures ParseFloat(k + "." + m + "." + o).None?
  {
    var s := k + "." + m + "." + o;
    assert s[|k|] == '.' && s[..|k|] == k && s[|k| + 1..][|m|] == '.';
    FirstOtherIs(s, 0, |k|);
  }

  /** Thousands, a dot, hundreds, a comma, decimals: as the shop sends amounts. */
  lemma DottedAmount(a: string, b: string, o: string)
    requires AllDigits(a) && AllDigits(b) && AllDigits(o) && a + b + o != ""
    ensures ParseKronor(a + "." + b + "," + o + " kr") == Fraction(a + b, o)
  {
    CoreOfDotted(a, b, o);
    DecimalAmount(a + "." + b + "," + o + " kr", a + b, o);
  }

  lemma CoreOfDotted(a: string, b: string, o: string)
    requires AllDigits(a) && AllDigits(b) && AllDigits(o)
    ensures Core(a + "." + b + "," + o + " kr") == a + b + "," + o
  {
    CoreOfSuffix();
    assert Core(".") == "" && Core(",") == ",";
    CoreAppend(a + "." + b + "," + o, " kr");
    CoreAppend(a + "." + b + ",", o);
    CoreAppend(a + "." + b, ",");
    CoreAppend(a + ".", b);
    CoreAppend(a, ".");
    CoreOfDigits(a);
    CoreOfDigits(b);
    CoreOfDigits(o);
    hide Core;
    assert a + "" == a && a + b + "," + o + "" == a + b + "," + o;
  }

  lemma CoreOfSuffix()
    ensures Core(" kr") == ""
  {
    assert " kr"[1..] == "kr" && "kr"[1..] == "r" && "r"[1..] == "";
  }

  /** Four digits of kronor are printed in two groups, with two decimals. */
  lemma FourDigitsPrinted(ore: int, k: string, o: string)
    requires ore >= 0 && Decimal(ore / 100) == k && Digits(ore % 100, 2) == o && |k| == 4
    ensures FormatKronor(ore) == k[..1] + " " + (k[1..] + "," + o) + " kr"
  {
    hide *;
    UngroupedIs(ore, k, o);
    SpacedAtOne(k + "," + o);
    FirstThenRest(k, "," + o);
    Assoc(k[..1] + " ", k[1..], "," + o);
    assert k + "," + o == k + ("," + o) && k[1..] + "," + o == k[1..] + ("," + o);
    FormatIs(ore, k + "," + o);
  }

  lemma FormatIs(ore: int, text: string)
    requires ReplaceFirst(ToFixed2(ore), '.', ',') == text
    ensures FormatKronor(ore) == Spaced(text, 0) + " kr"
  {
    hide Spaced, ReplaceFirst, ToFixed2;
  }

  lemma FirstThenRest(a: string, b: string)
    requires |a| > 1
    ensures (a + b)[..1] == a[..1] && (a + b)[1..] == a[1..] + b
  {
  }

  lemma UngroupedIs(ore: int, k: string, o: string)
    requires ore >= 0 && Decimal(ore / 100) == k && Digits(ore % 100, 2) == o && |k| == 4
    ensures ReplaceFirst(ToFixed2(ore), '.', ',') == k + "," + o
    ensures forall i: nat :: Gap(k + "," + o, i) <==> i == 1
  {
    hide *;
    NoSign(ore, k);
    Ungrouped(ore);
    GapAtOne(ore, k);
  }

  lemma NoSign(ore: int, k: string)
    requires ore >= 0
    ensures Sign(ore) == "" && Abs(ore) == ore && Sign(ore) + k == k
  {
  }

  lemma GapAtOne(ore: int, k: string)
    requires ore >= 0 && Decimal(ore / 100) == k && |k| == 4
    ensures forall i: nat :: Gap(ReplaceFirst(ToFixed2(ore), '.', ','), i) <==> i == 1
  {
    hide *;
    NoSign(ore, k);
    forall i: nat ensures Gap(ReplaceFirst(ToFixed2(ore), '.', ','), i) <==> i == 1 { GapsEveryThree(ore, i); }
  }

  lemma SpacedAtOne(text: string)
    requires |text| > 1 && forall i: nat :: Gap(text, i) <==> i == 1
    ensures Spaced(text, 0) == text[..1] + " " + text[1..]
  {
    hide Gap;
    SpacedFrom(text, 1);
    assert Spaced(text, 0) == [text[0]] + Spaced(text, 1);
    assert [text[0]] == text[..1];
    Assoc(text[..1], " ", text[1..]);
  }

  /** With a gap at `i` and none after it, a space and then the rest as it is. */
  lemma {:induction false} SpacedFrom(s: string, i: nat)
    requires i <= |s| && forall j: nat | i < j <= |s| :: !Gap(s, j)
    ensures Spaced(s, i) == (if Gap(s, i) then " " else "") + s[i..]
    decreases |s| - i
  {
    if i < |s| {
      SpacedFrom(s, i + 1);
      assert s[i..] == [s[i]] + s[i + 1..];
    }
  }
}
