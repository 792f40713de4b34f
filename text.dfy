/**
 * The JavaScript string and number built-ins the front end relies on:
 * decimal rendering of an integer (template literals, Number.prototype.toString),
 * parseInt(value, 10), String.prototype.toLowerCase, String.prototype.includes,
 * and the default ordering of Array.prototype.sort.
 */
module Text {

  /** A JavaScript number as the front end can produce it: an integer or NaN. */
  datatype IntOrNaN = Int(value: int) | NaN

  predicate IsDigit(c: char) {
    '0' <= c <= '9'
  }

  function DigitChar(d: nat): (c: char)
    requires d < 10
    ensures IsDigit(c) && c as int - '0' as int == d
  {
    (48 + d) as char
  }

  /** The decimal rendering of a non-negative integer, most significant digit first. */
  function Decimal(n: nat): (s: string)
    ensures 1 <= |s|
    ensures forall i :: 0 <= i < |s| ==> IsDigit(s[i])
    ensures (|s| == 1) == (n < 10)
  {
    if n < 10 then [DigitChar(n)] else Decimal(n / 10) + [DigitChar(n % 10)]
  }

  function DigitValue(c: char): (d: nat)
    requires IsDigit(c)
  {
    c as int - '0' as int
  }

  /** The value of a string of decimal digits. */
  function DigitsValue(s: string): (v: nat)
    requires forall i :: 0 <= i < |s| ==> IsDigit(s[i])
  {
    if s == [] then 0
    else
      assert IsDigit(s[|s| - 1]);
      DigitsValue(s[..|s| - 1]) * 10 + DigitValue(s[|s| - 1])
  }

  lemma {:induction false} DecimalValue(n: nat)
    ensures DigitsValue(Decimal(n)) == n
  {
    var s := Decimal(n);
    if n >= 10 {
      assert s[..|s| - 1] == Decimal(n / 10);
      DecimalValue(n / 10);
    }
  }

  /** Two numbers with the same decimal rendering are equal. */
  lemma DecimalInjective(a: nat, b: nat)
    requires Decimal(a) == Decimal(b)
    ensures a == b
  {
    DecimalValue(a);
    DecimalValue(b);
  }

  /**
   * The characters ECMAScript's StrWhiteSpaceChar admits: WhiteSpace
   * (tab, vertical tab, form feed, space, no-break space, byte-order mark
   * and the Unicode Zs category) and LineTerminator.
   */
  predicate IsJsWhiteSpace(c: char) {
    c == '\t' || c == '\U{000B}' || c == '\U{000C}' || c == ' ' || c == '\U{00A0}' ||
    c == '\U{FEFF}' || c == '\U{1680}' || ('\U{2000}' <= c <= '\U{200A}') ||
    c == '\U{202F}' || c == '\U{205F}' || c == '\U{3000}' ||
    c == '\n' || c == '\r' || c == '\U{2028}' || c == '\U{2029}'
  }

  /** `s` without its leading white space. */
  function TrimStart(s: string): (r: string)
    ensures r == [] || !IsJsWhiteSpace(r[0])
    ensures exists k :: 0 <= k <= |s| && r == s[k..] &&
              forall i :: 0 <= i < k ==> IsJsWhiteSpace(s[i])
  {
    if s != [] && IsJsWhiteSpace(s[0]) then
      var r := TrimStart(s[1..]);
      ghost var k :| 0 <= k <= |s[1..]| && r == s[1..][k..] &&
                     forall i :: 0 <= i < k ==> IsJsWhiteSpace(s[1..][i]);
      assert r == s[k + 1..];
      r
    else
      assert s == s[0..];
      s
  }

  /** The length of the longest prefix of `s` made of decimal digits. */
  function DigitRun(s: string): (n: nat)
    ensures n <= |s|
    ensures forall i :: 0 <= i < n ==> IsDigit(s[i])
    ensures n < |s| ==> !IsDigit(s[n])
  {
    if s != [] && IsDigit(s[0]) then 1 + DigitRun(s[1..]) else 0
  }

  /**
   * parseInt(s, 10): skip leading white space, take an optional sign, then
   * the longest run of decimal digits; NaN when that run is empty.
   */
  function ParseInt(s: string): (r: IntOrNaN)
  {
    var t := TrimStart(s);
    var negative := t != [] && t[0] == '-';
    var u := if t != [] && (t[0] == '-' || t[0] == '+') then t[1..] else t;
    var n := DigitRun(u);
    if n == 0 then NaN
    else if negative then Int(-(DigitsValue(u[..n]) as int))
    else Int(DigitsValue(u[..n]))
  }

  /** parseInt reads back what Decimal renders. */
  lemma ParseDecimal(n: nat)
    ensures ParseInt(Decimal(n)) == Int(n)
  {
    ParseDigits(Decimal(n));
    DecimalValue(n);
  }

  /** parseInt of a non-empty run of digits is the value of that run. */
  lemma ParseDigits(s: string)
    requires 1 <= |s|
    requires forall i :: 0 <= i < |s| ==> IsDigit(s[i])
    ensures ParseInt(s) == Int(DigitsValue(s))
  {
    assert !IsJsWhiteSpace(s[0]) && s[0] != '-' && s[0] != '+' by { assert IsDigit(s[0]); }
    assert TrimStart(s) == s;
    DigitRunAll(s);
    assert s[..|s|] == s;
  }

  lemma {:induction false} DigitRunAll(s: string)
    requires forall i :: 0 <= i < |s| ==> IsDigit(s[i])
    ensures DigitRun(s) == |s|
  {
    if s != [] {
      DigitRunAll(s[1..]);
    }
  }

  /** parseInt of a string with no digit after its optional sign is NaN. */
  lemma ParseNoDigits(s: string)
    requires forall i :: 0 <= i < |s| ==> !IsDigit(s[i])
    ensures ParseInt(s) == NaN
  {
    var t := TrimStart(s);
    var k :| 0 <= k <= |s| && t == s[k..] && forall i :: 0 <= i < k ==> IsJsWhiteSpace(s[i]);
    assert forall i :: 0 <= i < |t| ==> t[i] == s[k + i];
  }

  /** String.prototype.toLowerCase on one character (ASCII letters only). */
  function LowerChar(c: char): char {
    if 'A' <= c <= 'Z' then (c as int + 32) as char else c
  }

  function ToLower(s: string): (r: string)
    ensures |r| == |s|
    ensures forall i :: 0 <= i < |s| ==> r[i] == LowerChar(s[i])
  {
    seq(|s|, i requires 0 <= i < |s| => LowerChar(s[i]))
  }

  lemma ToLowerIdempotent(s: string)
    ensures ToLower(ToLower(s)) == ToLower(s)
  {
  }

  /** `needle` occurs in `hay` starting at index `i`. */
  predicate OccursAt(hay: string, needle: string, i: int) {
    0 <= i && i + |needle| <= |hay| && hay[i..i + |needle|] == needle
  }

  /** String.prototype.includes: `needle` occurs somewhere in `hay`. */
  function Includes(hay: string, needle: string): (b: bool)
    ensures b <==> exists i :: OccursAt(hay, needle, i)
    decreases |hay|
  {
    if |needle| > |hay| then false
    else if hay[..|needle|] == needle then
      assert OccursAt(hay, needle, 0);
      true
    else
      var b := Includes(hay[1..], needle);
      assert forall i :: OccursAt(hay[1..], needle, i) <==> OccursAt(hay, needle, i + 1) by {
        forall i ensures OccursAt(hay[1..], needle, i) <==> OccursAt(hay, needle, i + 1) {
          if 0 <= i && i + |needle| <= |hay[1..]| {
            assert hay[1..][i..i + |needle|] == hay[i + 1..i + 1 + |needle|];
          }
        }
      }
      assert !OccursAt(hay, needle, 0);
      assert forall i :: OccursAt(hay, needle, i) && i != 0 ==> OccursAt(hay[1..], needle, i - 1);
      b
  }

  /** Every string includes the empty string. */
  lemma IncludesEmpty(hay: string)
    ensures Includes(hay, "")
  {
    assert OccursAt(hay, "", 0);
  }

  /**
   * The order Array.prototype.sort uses by default: strings compared
   * character by character, a proper prefix first.
   */
  predicate Below(a: string, b: string) {
    if a == [] then b != []
    else if b == [] then false
    else if a[0] == b[0] then Below(a[1..], b[1..])
    else a[0] < b[0]
  }

  lemma {:induction false} BelowIrreflexive(a: string)
    ensures !Below(a, a)
  {
    if a != [] {
      BelowIrreflexive(a[1..]);
    }
  }

  lemma {:induction false} BelowTransitive(a: string, b: string, c: string)
    requires Below(a, b) && Below(b, c)
    ensures Below(a, c)
  {
    if a != [] && b != [] && c != [] && a[0] == b[0] && b[0] == c[0] {
      BelowTransitive(a[1..], b[1..], c[1..]);
    }
  }

  lemma {:induction false} BelowTotal(a: string, b: string)
    requires a != b
    ensures Below(a, b) || Below(b, a)
  {
    if a != [] && b != [] && a[0] == b[0] {
      assert a == [a[0]] + a[1..] && b == [b[0]] + b[1..];
      BelowTotal(a[1..], b[1..]);
    }
  }

  /** A finite non-empty set of strings has a least element. */
  lemma {:induction false} HasLeast(s: set<string>)
    requires s != {}
    ensures exists m :: m in s && forall x :: x in s && x != m ==> Below(m, x)
  {
    var y :| y in s;
    var rest := s - {y};
    if rest == {} {
      assert s == {y};
    } else {
      HasLeast(rest);
      var m :| m in rest && forall x :: x in rest && x != m ==> Below(m, x);
      if Below(y, m) {
        forall x | x in s && x != y ensures Below(y, x) {
          if x != m {
            BelowTransitive(y, m, x);
          }
        }
      } else {
        BelowTotal(y, m);
        assert forall x :: x in s && x != m ==> Below(m, x);
      }
    }
  }

  ghost function Least(s: set<string>): (m: string)
    requires s != {}
    ensures m in s && forall x :: x in s && x != m ==> Below(m, x)
  {
    HasLeast(s);
    var m :| m in s && forall x :: x in s && x != m ==> Below(m, x);
    m
  }

  ghost predicate StrictlySorted(r: seq<string>) {
    forall i, j :: 0 <= i < j < |r| ==> Below(r[i], r[j])
  }

  /** The elements of a finite set of strings in ascending order, each once. */
  ghost function SortedSet(s: set<string>): (r: seq<string>)
    ensures StrictlySorted(r)
    ensures forall x :: x in r <==> x in s
    ensures |r| == |s|
    decreases |s|
  {
    if s == {} then []
    else
      var m := Least(s);
      var rest := SortedSet(s - {m});
      forall j | 0 <= j < |rest| ensures Below(m, rest[j]) {
        assert rest[j] in s - {m};
      }
      [m] + rest
  }

  /** A strictly sorted sequence has no repeated element. */
  lemma SortedDistinct(r: seq<string>)
    requires StrictlySorted(r)
    ensures forall i, j :: 0 <= i < j < |r| ==> r[i] != r[j]
  {
    forall i, j | 0 <= i < j < |r| ensures r[i] != r[j] {
      if r[i] == r[j] {
        BelowIrreflexive(r[i]);
      }
    }
  }
}
