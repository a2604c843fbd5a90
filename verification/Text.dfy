// Character classes, runs of characters and decimal numerals, as the
// regular expressions of the planner and of the STAC adapter use them.
module Text {

  predicate IsDigit(c: char) {
    '0' <= c <= '9'
  }

  predicate IsLetter(c: char) {
    'a' <= c <= 'z' || 'A' <= c <= 'Z'
  }

  predicate IsWord(c: char) {
    IsDigit(c) || IsLetter(c) || c == '_'
  }

  /** Every character of `s` is in the class `p`. */
  predicate All(s: string, p: char -> bool) {
    forall k :: 0 <= k < |s| ==> p(s[k])
  }

  /** The literal `lit` stands at position `i` of `s`. */
  predicate At(s: string, i: nat, lit: string) {
    i + |lit| <= |s| && s[i..i + |lit|] == lit
  }

  /** `part in text`. */
  predicate Contains(text: string, part: string) {
    exists i: nat :: i <= |text| && At(text, i, part)
  }

  function LowerChar(c: char): char {
    if 'A' <= c <= 'Z' then (c as int + 32) as char else c
  }

  function Lower(s: string): (r: string)
    ensures |r| == |s| && forall k :: 0 <= k < |s| ==> r[k] == LowerChar(s[k])
  {
    seq(|s|, k requires 0 <= k < |s| => LowerChar(s[k]))
  }

  /** The first part of a concatenation stands at its start. */
  lemma AtFirst(s: string, i: nat, e: nat, first: string, rest: string)
    requires i <= e <= |s| && s[i..e] == first + rest
    ensures At(s, i, first)
    ensures i + |first| <= e && s[i + |first|..e] == rest
  {
    assert s[i..i + |first|] == s[i..e][..|first|] == first;
    assert s[i + |first|..e] == s[i..e][|first|..] == rest;
  }

  /** The end of the longest run of characters of class `p` that starts at `i`
      (a greedy `[...]*` of a regular expression). */
  function Run(s: string, i: nat, p: char -> bool): (j: nat)
    requires i <= |s|
    ensures i <= j <= |s|
    ensures All(s[i..j], p)
    ensures j == |s| || !p(s[j])
    decreases |s| - i
  {
    if i == |s| || !p(s[i]) then i
    else
      var j := Run(s, i + 1, p);
      assert s[i..j] == [s[i]] + s[i + 1..j];
      j
  }

  /** A run is determined by its class: a stretch of class `p` that is followed
      by the end or by a character outside the class is the greedy run. */
  lemma {:induction false} RunIs(s: string, i: nat, j: nat, p: char -> bool)
    requires i <= j <= |s|
    requires All(s[i..j], p)
    requires j == |s| || !p(s[j])
    ensures Run(s, i, p) == j
    decreases j - i
  {
    if i < j {
      assert s[i] == s[i..j][0];
      assert s[i + 1..j] == s[i..j][1..];
      RunIs(s, i + 1, j, p);
    }
  }

  /** The value of a string of digits, `int(...)`. */
  function ParseNat(s: string): nat
    requires All(s, IsDigit)
  {
    if s == [] then 0
    else 10 * ParseNat(s[..|s| - 1]) + (s[|s| - 1] as int - '0' as int)
  }

  /** The decimal numeral of a number, without leading zeros. */
  function Numeral(n: nat): (s: string)
    ensures |s| >= 1 && All(s, IsDigit)
  {
    var digit := [('0' as int + n % 10) as char];
    if n < 10 then digit else Numeral(n / 10) + digit
  }

  lemma {:induction false} ParseNumeral(n: nat)
    ensures ParseNat(Numeral(n)) == n
  {
    var s := Numeral(n);
    if n < 10 {
      assert s[..|s| - 1] == [];
    } else {
      ParseNumeral(n / 10);
      assert s[..|s| - 1] == Numeral(n / 10);
    }
  }

  function Power10(n: nat): nat {
    if n == 0 then 1 else 10 * Power10(n - 1)
  }

  /** The first digit counts as many tens as digits follow it. */
  lemma {:induction false} ParseFirst(c: char, s: string)
    requires IsDigit(c) && All(s, IsDigit)
    ensures All([c] + s, IsDigit)
    ensures ParseNat([c] + s) == (c as int - '0' as int) * Power10(|s|) + ParseNat(s)
  {
    if s == "" {
      assert ([c] + s)[..0] == "";
    } else {
      var k := |s| - 1;
      var head, all := s[..k], [c] + s;
      ParseFirst(c, head);
      assert all[..|all| - 1] == [c] + head && all[|all| - 1] == s[k];
      hide IsDigit, Power10;
      Shifted(c as int - '0' as int, Power10(k), ParseNat(head), s[k] as int - '0' as int);
      PowerNext(k);
    }
  }

  lemma Shifted(d: int, p: int, rest: int, last: int)
    ensures 10 * (d * p + rest) + last == d * (10 * p) + (10 * rest + last)
  {
  }

  lemma PowerNext(n: nat)
    ensures Power10(n + 1) == 10 * Power10(n)
  {
  }
}
