/** The cell-value normalisers: text, model and blade labels, flex and quantities. */
module Parsing {
  import opened Cells

  /** The characters Python's `str.strip()` removes (those for which `str.isspace()` holds). */
  predicate IsSpace(ch: char) {
    var n := ch as int;
    9 <= n <= 13 || 28 <= n <= 32 || n == 0x85 || n == 0xA0 || n == 0x1680
    || 0x2000 <= n <= 0x200A || n == 0x2028 || n == 0x2029 || n == 0x202F
    || n == 0x205F || n == 0x3000
  }

  /** A decimal digit; only the ASCII digits are modelled. */
  predicate IsDigit(ch: char) {
    '0' <= ch <= '9'
  }

  predicate IsNonDigit(ch: char) {
    !IsDigit(ch)
  }

  predicate AllDigits(s: string) {
    forall i :: 0 <= i < |s| ==> IsDigit(s[i])
  }

  /** Length of the longest prefix of `s` whose characters all satisfy `p`. */
  function PrefixWhile(s: string, p: char -> bool): (n: nat)
    ensures n <= |s|
    ensures forall i :: 0 <= i < n ==> p(s[i])
    ensures n < |s| ==> !p(s[n])
  {
    if |s| > 0 && p(s[0]) then
      var n := 1 + PrefixWhile(s[1..], p);
      assert forall i :: 1 <= i < n ==> s[i] == s[1..][i - 1];
      n
    else
      0
  }

  /** Length of the longest suffix of `s` whose characters all satisfy `p`. */
  function SuffixWhile(s: string, p: char -> bool): (n: nat)
    ensures n <= |s|
    ensures forall i :: |s| - n <= i < |s| ==> p(s[i])
    ensures n < |s| ==> !p(s[|s| - 1 - n])
  {
    if |s| > 0 && p(s[|s| - 1]) then
      var front := s[..|s| - 1];
      var n := 1 + SuffixWhile(front, p);
      assert forall i :: |s| - n <= i < |s| - 1 ==> s[i] == front[i];
      n
    else
      0
  }

  /** `str.strip()`: drop leading and trailing whitespace.  What is left starts where the leading
      whitespace ends and is followed by whitespace only. */
  function Strip(s: string): (t: string)
    ensures |t| <= |s|
    ensures t == [] <==> forall i :: 0 <= i < |s| ==> IsSpace(s[i])
    ensures t != [] ==> !IsSpace(t[0]) && !IsSpace(t[|t| - 1])
    ensures var i := PrefixWhile(s, IsSpace);
            && i + |t| <= |s| && t == s[i..i + |t|]
            && forall k :: i + |t| <= k < |s| ==> IsSpace(s[k])
  {
    var lead := PrefixWhile(s, IsSpace);
    if lead == |s| then
      []
    else
      var trail := SuffixWhile(s, IsSpace);
      assert lead < |s| - trail;
      s[lead..|s| - trail]
  }

  /** Stripping a string that neither starts nor ends with whitespace leaves it as it is. */
  lemma StripTrimmed(s: string)
    requires s != [] && !IsSpace(s[0]) && !IsSpace(s[|s| - 1])
    ensures Strip(s) == s
  {
    var i := PrefixWhile(s, IsSpace);
    assert i == 0;
    assert !IsSpace(s[|s| - 1]);
  }

  /** `has_non_ascii`: some character has a code point above 127. */
  function HasNonAscii(s: string): (b: bool)
    ensures b <==> exists i :: 0 <= i < |s| && s[i] as int > 127
  {
    if |s| == 0 then
      false
    else if s[0] as int > 127 then
      true
    else
      var rest := HasNonAscii(s[1..]);
      assert forall i :: 1 <= i < |s| ==> s[i] == s[1..][i - 1];
      rest
  }

  function UpperChar(ch: char): char {
    if 'a' <= ch <= 'z' then (ch as int - 32) as char else ch
  }

  /** `str.upper()`, on the ASCII letters only. */
  function Upper(s: string): (u: string)
    ensures |u| == |s|
    ensures forall i :: 0 <= i < |s| ==> u[i] == UpperChar(s[i])
  {
    seq(|s|, i requires 0 <= i < |s| => UpperChar(s[i]))
  }

  function DigitChar(d: nat): char
    requires d < 10
  {
    ('0' as int + d) as char
  }

  function DigitValue(ch: char): nat
    requires IsDigit(ch)
  {
    ch as int - '0' as int
  }

  /** `int(digits)` for a run of decimal digits (leading zeros allowed). */
  function DigitsValue(s: string): nat
    requires AllDigits(s)
  {
    if s == [] then 0 else 10 * DigitsValue(s[..|s| - 1]) + DigitValue(s[|s| - 1])
  }

  /** `str(n)` for a natural number: its shortest decimal numeral. */
  function NatToDecimal(n: nat): (s: string)
    ensures |s| >= 1 && AllDigits(s)
    ensures DigitsValue(s) == n
    ensures s[0] == '0' ==> n == 0
    ensures |s| > 1 ==> s[0] != '0'
  {
    if n < 10 then
      [DigitChar(n)]
    else
      var front := NatToDecimal(n / 10);
      var s := front + [DigitChar(n % 10)];
      assert s[..|s| - 1] == front;
      s
  }

  /** `str(n)` for an integer: a minus sign before the numeral of a negative number. */
  function IntToDecimal(n: int): (s: string)
    ensures |s| >= 1
    ensures forall i :: 0 <= i < |s| ==> IsDigit(s[i]) || s[i] == '-'
  {
    if n < 0 then "-" + NatToDecimal(-n) else NatToDecimal(n)
  }

  /** `str(v)` for a cell value other than None. */
  function Render(v: Cell): string
    requires !v.Empty?
  {
    match v
    case Integer(n) => IntToDecimal(n)
    case Boolean(b) => if b then "True" else "False"
    case Text(s) => s
    case Other(r) => r
  }

  /** `norm_text`: the value's text with surrounding whitespace removed, or None if nothing is left. */
  function NormText(v: Cell): (t: Option<string>)
    ensures t.Some? ==> |t.value| > 0 && !IsSpace(t.value[0]) && !IsSpace(t.value[|t.value| - 1])
    ensures v.Empty? ==> t.None?
    ensures v.Text? ==> (t.None? <==> forall i :: 0 <= i < |v.s| ==> IsSpace(v.s[i]))
    ensures v.Integer? ==> t == Some(IntToDecimal(v.n))
    ensures !v.Empty? ==> (t.None? <==> Strip(Render(v)) == []) && (t.Some? ==> t.value == Strip(Render(v)))
  {
    if v.Empty? then
      None
    else
      var s := Strip(Render(v));
      assert v.Integer? ==> s == Render(v) by {
        if v.Integer? {
          StripTrimmed(Render(v));
        }
      }
      if s == [] then None else Some(s)
  }

  /** `norm_model`: a model label is normalised like any text. */
  function NormModel(v: Cell): (t: Option<string>)
    ensures v.Empty? ==> t.None?
    ensures !v.Empty? ==> (t.None? <==> Strip(Render(v)) == []) && (t.Some? ==> t.value == Strip(Render(v)))
  {
    NormText(v)
  }

  /** `norm_blade`: normalised text, upper-cased. */
  function NormBlade(v: Cell): (t: Option<string>)
    ensures t.None? <==> NormText(v).None?
    ensures t.Some? ==> |t.value| == |NormText(v).value|
                        && forall i :: 0 <= i < |t.value| ==>
                             t.value[i] == UpperChar(NormText(v).value[i]) && !('a' <= t.value[i] <= 'z')
  {
    var s := NormText(v);
    if s.Some? then Some(Upper(s.value)) else None
  }

  /** Where the first maximal run of digits of `s` lies: it starts at `i` and ends before `j`. */
  predicate IsFirstDigitRun(s: string, i: int, j: int) {
    && 0 <= i < j <= |s|
    && IsDigit(s[i])
    && (forall k :: 0 <= k < i ==> !IsDigit(s[k]))
    && (forall k :: i <= k < j ==> IsDigit(s[k]))
    && (j == |s| || !IsDigit(s[j]))
  }

  /** `re.search(r"\d+", s)` followed by `int(...)` of the match, or None without a match. */
  function FirstDigitRun(s: string): (r: Option<nat>)
    ensures r.None? <==> forall k :: 0 <= k < |s| ==> !IsDigit(s[k])
  {
    var i := PrefixWhile(s, IsNonDigit);
    if i == |s| then
      None
    else
      var n := PrefixWhile(s[i..], IsDigit);
      assert forall k :: i <= k < i + n ==> s[k] == s[i..][k - i];
      Some(DigitsValue(s[i..i + n]))
  }

  /** The first digit run is the one the regular-expression search finds: whatever first maximal
      run of digits `s` has, `FirstDigitRun` is its value, and one exists whenever the result is not None. */
  lemma FirstDigitRunSpec(s: string)
    ensures forall i, j :: IsFirstDigitRun(s, i, j) ==> FirstDigitRun(s) == Some(DigitsValue(s[i..j]))
    ensures FirstDigitRun(s).Some? ==> exists i, j :: IsFirstDigitRun(s, i, j)
  {
    var i0 := PrefixWhile(s, IsNonDigit);
    if i0 < |s| {
      var n := PrefixWhile(s[i0..], IsDigit);
      assert forall k :: i0 <= k < i0 + n ==> s[k] == s[i0..][k - i0];
      assert i0 + n < |s| ==> s[i0 + n] == s[i0..][n];
      assert n > 0 by {
        assert s[i0..][0] == s[i0];
      }
      assert IsFirstDigitRun(s, i0, i0 + n);
      forall i, j | IsFirstDigitRun(s, i, j)
        ensures i == i0 && j == i0 + n
      {
        assert IsDigit(s[i]) && IsDigit(s[i0]);
        assert IsDigit(s[j - 1]) && IsDigit(s[i0 + n - 1]);
        assert j < |s| ==> !IsDigit(s[j]);
        assert i0 + n < |s| ==> !IsDigit(s[i0 + n]);
      }
    }
  }

  /** A first digit run of `s` that lies inside the slice `t` of `s` gives `t` the same value. */
  lemma FirstDigitRunInSlice(s: string, a: nat, t: string, i: int, j: int)
    requires a + |t| <= |s| && t == s[a..a + |t|]
    requires IsFirstDigitRun(s, i, j) && a <= i && j <= a + |t|
    ensures FirstDigitRun(t) == FirstDigitRun(s)
  {
    DigitRunInSlice(s, a, t, i, j);
    SameDigitRun(s, i, j, t, i - a, j - a);
  }

  /** Two strings whose first digit runs spell the same digits have the same first digit run value. */
  lemma SameDigitRun(s: string, i: int, j: int, t: string, i': int, j': int)
    requires IsFirstDigitRun(s, i, j) && IsFirstDigitRun(t, i', j') && t[i'..j'] == s[i..j]
    ensures FirstDigitRun(t) == FirstDigitRun(s)
  {
    FirstDigitRunIs(t, i', j');
    FirstDigitRunIs(s, i, j);
  }

  /** The first digit run of `s` sits at the same digits, shifted by `a`, in the slice `t`. */
  lemma DigitRunInSlice(s: string, a: nat, t: string, i: int, j: int)
    requires a + |t| <= |s| && t == s[a..a + |t|]
    requires IsFirstDigitRun(s, i, j) && a <= i && j <= a + |t|
    ensures IsFirstDigitRun(t, i - a, j - a) && t[i - a..j - a] == s[i..j]
  {
    assert forall k :: 0 <= k < |t| ==> t[k] == s[a + k];
    assert j - a < |t| ==> t[j - a] == s[j];
  }

  /** Whitespace is never a digit, so stripping a string does not move its first digit run. */
  lemma FirstDigitRunOfStrip(s: string)
    ensures FirstDigitRun(Strip(s)) == FirstDigitRun(s)
  {
    if FirstDigitRun(s).Some? {
      FoundDigitRunOfStrip(s);
    } else {
      NoDigitRunOfStrip(s);
    }
  }

  /** Stripping keeps a first digit run that exists. */
  lemma FoundDigitRunOfStrip(s: string)
    requires FirstDigitRun(s).Some?
    ensures FirstDigitRun(Strip(s)) == FirstDigitRun(s)
  {
    var i, j := FirstDigitRunWitness(s);
    var a := StripAround(s, i, j);
    FirstDigitRunInSlice(s, a, Strip(s), i, j);
  }

  /** Stripping a text without digits leaves a text without digits. */
  lemma NoDigitRunOfStrip(s: string)
    requires FirstDigitRun(s).None?
    ensures FirstDigitRun(Strip(s)).None?
  {
    var t := Strip(s);
    var a := PrefixWhile(s, IsSpace);
    forall k | 0 <= k < |t|
      ensures !IsDigit(t[k])
    {
      assert t[k] == s[a + k];
    }
  }

  /** Characters `i` to `j - 1` of `s`, the outer two not whitespace, survive stripping: the
      stripped text is the slice of `s` from `a` on, and it covers them. */
  lemma StripAround(s: string, i: int, j: int) returns (a: nat)
    requires 0 <= i < j <= |s| && !IsSpace(s[i]) && !IsSpace(s[j - 1])
    ensures a + |Strip(s)| <= |s| && Strip(s) == s[a..a + |Strip(s)|]
    ensures a <= i && j <= a + |Strip(s)|
  {
    a := PrefixWhile(s, IsSpace);
  }


  /** A first digit run exists whenever the search finds one. */
  lemma FirstDigitRunWitness(s: string) returns (i: int, j: int)
    requires FirstDigitRun(s).Some?
    ensures IsFirstDigitRun(s, i, j)
  {
    FirstDigitRunSpec(s);
    i, j :| IsFirstDigitRun(s, i, j);
  }

  /** A first digit run found at `i`..`j` is the value the search gives. */
  lemma FirstDigitRunIs(s: string, i: int, j: int)
    requires IsFirstDigitRun(s, i, j)
    ensures FirstDigitRun(s) == Some(DigitsValue(s[i..j]))
  {
    FirstDigitRunSpec(s);
  }


  /** `parse_flex`: integers pass through, strings give their first digit run. */
  function ParseFlex(v: Cell): (r: Option<int>)
    ensures v.Integer? ==> r == Some(v.n)
    ensures v.Text? ==> (r.None? <==> forall k :: 0 <= k < |v.s| ==> !IsDigit(v.s[k]))
    ensures v.Text? && r.Some? ==> r.value >= 0
    ensures v.Text? ==> r == FirstDigitRun(v.s)
    ensures v.Boolean? ==> r == Some(if v.b then 1 else 0)
    ensures v.Empty? || v.Other? ==> r.None?
  {
    match v
    case Empty => None
    case Integer(n) => Some(n)
    case Boolean(b) => Some(if b then 1 else 0)
    case Text(s) =>
      var m := FirstDigitRun(s);
      if m.Some? then Some(m.value) else None
    case Other(_) => None
  }
  /** `parse_flex` of a text is the value of its first maximal run of digits, found by the regular
      expression search, and it gives a value only when there is such a run. */
  lemma ParseFlexFirstRun(s: string)
    ensures forall i, j :: IsFirstDigitRun(s, i, j) ==> ParseFlex(Text(s)) == Some(DigitsValue(s[i..j]))
    ensures ParseFlex(Text(s)).Some? ==> exists i, j :: IsFirstDigitRun(s, i, j)
  {
    FirstDigitRunSpec(s);
  }

  /** `parse_qty`: like `parse_flex`, except that a string is stripped first, a blank one gives None,
      and with defect exclusion on a string whose stripped form holds a non-ASCII character gives None. */
  function ParseQty(v: Cell, defectExclusion: bool): (r: Option<int>)
    ensures v.Integer? ==> r == Some(v.n)
    ensures v.Text? && Strip(v.s) == [] ==> r.None?
    ensures v.Text? && defectExclusion && HasNonAscii(Strip(v.s)) ==> r.None?
    ensures v.Empty? || v.Other? ==> r.None?
    ensures v.Boolean? ==> r == Some(if v.b then 1 else 0)
  {
    match v
    case Empty => None
    case Integer(n) => Some(n)
    case Boolean(b) => Some(if b then 1 else 0)
    case Text(raw) =>
      var s := Strip(raw);
      if s == [] then
        None
      else if defectExclusion && HasNonAscii(s) then
        None
      else
        var m := FirstDigitRun(s);
        if m.Some? then Some(m.value) else None
    case Other(_) => None
  }

  /** Unless a quantity string is excluded as a defect, it reads as the same number as a flex
      string does: its first digit run (with exclusion off this holds for every cell). */
  lemma ParseQtyAgreesWithFlex(v: Cell, defectExclusion: bool)
    requires !(v.Text? && defectExclusion && HasNonAscii(Strip(v.s)))
    ensures ParseQty(v, defectExclusion) == ParseFlex(v)
  {
    if v.Text? {
      FirstDigitRunOfStrip(v.s);
    }
  }

  /** The text of an integer cell reads back as the same flex: `parse_flex(str(n)) == n` for n >= 0. */
  lemma {:induction false} FlexOfIntegerText(n: nat)
    ensures ParseFlex(Text(NatToDecimal(n))) == Some(n)
  {
    var s := NatToDecimal(n);
    assert IsFirstDigitRun(s, 0, |s|);
    FirstDigitRunSpec(s);
    assert s[0..|s|] == s;
  }
}
