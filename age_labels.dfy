/**
 * The numeric sort key of an age-bracket label such as "20-24" or "80+":
 * the text before the first '-', with the first '+' removed, read as a number.
 */
module AgeLabels {
  import opened Wrappers

  predicate IsDigit(c: char) { '0' <= c <= '9' }

  predicate AllDigits(s: string) { forall i :: 0 <= i < |s| ==> IsDigit(s[i]) }

  function DigitValue(c: char): (d: nat)
    requires IsDigit(c)
    ensures d < 10
  {
    c as int - '0' as int
  }

  function DigitChar(d: nat): (c: char)
    requires d < 10
    ensures IsDigit(c) && DigitValue(c) == d
  {
    ('0' as int + d) as char
  }

  /** The value of a string of decimal digits, most significant digit first. */
  function DigitsValue(s: string): nat
    requires AllDigits(s)
  {
    if s == [] then 0 else 10 * DigitsValue(s[..|s| - 1]) + DigitValue(s[|s| - 1])
  }

  /** The shortest decimal numeral of n. */
  function ToDecimal(n: nat): (s: string)
    ensures |s| >= 1 && AllDigits(s)
    ensures |s| > 1 ==> s[0] != '0'
    ensures DigitsValue(s) == n
  {
    if n < 10 then [DigitChar(n)]
    else
      var prefix := ToDecimal(n / 10);
      var s := prefix + [DigitChar(n % 10)];
      assert s[..|s| - 1] == prefix;
      s
  }

  /** The index of the first `c` in `s`, or |s| when there is none (JavaScript's indexOf, with -1 read as |s|). */
  function IndexOf(s: string, c: char): (k: nat)
    ensures k <= |s|
    ensures c !in s[..k]
    ensures k < |s| ==> s[k] == c
  {
    if s == [] || s[0] == c then 0
    else
      var k := 1 + IndexOf(s[1..], c);
      assert s[..k] == [s[0]] + s[1..][..k - 1];
      k
  }

  /** `s.split(sep)[0]`: the text before the first `sep`, or all of `s`. */
  function BeforeFirst(s: string, sep: char): (r: string)
    ensures |r| <= |s| && r == s[..|r|]
    ensures sep !in r
    ensures |r| < |s| ==> s[|r|] == sep
  {
    s[..IndexOf(s, sep)]
  }

  /** `s.replace(c, "")` for a one-character pattern: only the first occurrence of `c` is removed. */
  function RemoveFirst(s: string, c: char): (r: string)
    ensures c !in s ==> r == s
    ensures c in s ==> |r| == |s| - 1 && multiset(r) == multiset(s) - multiset{c}
    ensures c in s ==> var before := BeforeFirst(s, c); r == before + s[|before| + 1..]
  {
    var k := IndexOf(s, c);
    if k == |s| then
      assert s[..k] == s;
      s
    else
      assert s == s[..k] + [s[k]] + s[k + 1..];
      s[..k] + s[k + 1..]
  }

  /**
   * The unary `+` applied to a string, on the inputs age labels can produce:
   * a string of decimal digits gives its value, the empty string gives 0 (as
   * JavaScript's Number("") does), anything else is not a number.
   */
  function ParseNumber(t: string): (r: Option<nat>)
    ensures r.Some? <==> AllDigits(t)
    ensures t == [] ==> r == Some(0)
  {
    if AllDigits(t) then Some(DigitsValue(t)) else None
  }

  /** Appending a digit to a numeral multiplies its value by ten and adds the digit. */
  lemma ParseNumberAppendDigit(t: string, c: char)
    requires AllDigits(t) && IsDigit(c)
    ensures ParseNumber(t + [c]) == Some(10 * ParseNumber(t).value + DigitValue(c))
  {
    assert (t + [c])[..|t|] == t;
  }

  /** Reading back the decimal numeral of n gives n. */
  lemma ParseNumberOfDecimal(n: nat)
    ensures ParseNumber(ToDecimal(n)) == Some(n)
  {
  }

  /** A leading zero does not change the value: `+"05"` is 5. */
  lemma {:induction false} ParseNumberLeadingZero(t: string)
    requires AllDigits(t)
    ensures ParseNumber("0" + t) == ParseNumber(t)
    decreases |t|
  {
    if t != [] {
      var init := t[..|t| - 1];
      ParseNumberLeadingZero(init);
      assert ("0" + t)[..|t|] == "0" + init;
    }
  }

  /** The sort key of an age-bracket label. */
  function AgeKey(bracket: string): (r: Option<nat>)
    ensures '-' !in bracket && '+' !in bracket ==> r == ParseNumber(bracket)
  {
    var head := BeforeFirst(bracket, '-');
    assert '-' !in bracket ==> head == bracket;
    ParseNumber(RemoveFirst(head, '+'))
  }

  lemma IndexOfAbsent(s: string, c: char)
    requires c !in s
    ensures IndexOf(s, c) == |s|
  {
  }

  lemma IndexOfFirst(a: string, c: char, b: string)
    requires c !in a
    ensures IndexOf(a + [c] + b, c) == |a|
  {
    var s := a + [c] + b;
    var k := IndexOf(s, c);
    assert s[|a|] == c;
    assert forall i :: 0 <= i < |a| ==> s[i] == a[i] && a[i] != c;
  }

  lemma DigitsHaveNo(s: string, c: char)
    requires AllDigits(s) && !IsDigit(c)
    ensures c !in s
  {
  }

  /** A range label is keyed by the numeral before its dash. */
  lemma AgeKeyOfDigitsDash(d: string, rest: string)
    requires AllDigits(d)
    ensures AgeKey(d + "-" + rest) == ParseNumber(d)
  {
    DigitsHaveNo(d, '-');
    DigitsHaveNo(d, '+');
    IndexOfFirst(d, '-', rest);
    assert BeforeFirst(d + "-" + rest, '-') == d;
    IndexOfAbsent(d, '+');
  }

  /** An open-ended label is keyed by the numeral before its `+`. */
  lemma AgeKeyOfDigitsPlus(d: string)
    requires AllDigits(d)
    ensures AgeKey(d + "+") == ParseNumber(d)
  {
    DigitsHaveNo(d, '-');
    DigitsHaveNo(d, '+');
    IndexOfAbsent(d + "+", '-');
    assert BeforeFirst(d + "+", '-') == d + "+";
    IndexOfFirst(d, '+', []);
    assert d + "+" == d + ['+'] + [];
    assert RemoveFirst(d + "+", '+') == d;
  }

  /** "20-24": the key of a range label is its lower bound, whatever follows the dash. */
  lemma AgeKeyOfRange(n: nat, rest: string)
    ensures AgeKey(ToDecimal(n) + "-" + rest) == Some(n)
  {
    AgeKeyOfDigitsDash(ToDecimal(n), rest);
  }

  /** "80+": the key of an open-ended label is its bound. */
  lemma AgeKeyOfOpenBracket(n: nat)
    ensures AgeKey(ToDecimal(n) + "+") == Some(n)
  {
    AgeKeyOfDigitsPlus(ToDecimal(n));
  }

  /** Only the text before the first dash matters to the key. */
  lemma AgeKeyIgnoresAfterDash(p: string, q: string)
    requires '-' !in p
    ensures AgeKey(p + "-" + q) == AgeKey(p)
  {
    IndexOfFirst(p, '-', q);
    IndexOfAbsent(p, '-');
    assert BeforeFirst(p + "-" + q, '-') == p;
    assert BeforeFirst(p, '-') == p;
  }

  /** The dataset's open-ended bracket. */
  lemma AgeKeyOfEightyPlus()
    ensures AgeKey("80+") == Some(80)
  {
    assert "80+" == "80" + "+";
    AgeKeyOfDigitsPlus("80");
    assert "80" == "8" + ['0'];
    ParseNumberAppendDigit("8", '0');
  }

  /** A range bracket of the dataset. */
  lemma AgeKeyOfTwentyToTwentyFour()
    ensures AgeKey("20-24") == Some(20)
  {
    assert "20-24" == "20" + "-" + "24";
    AgeKeyOfDigitsDash("20", "24");
    assert "20" == "2" + ['0'];
    ParseNumberAppendDigit("2", '0');
  }
}
