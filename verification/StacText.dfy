// The two regular expressions of the STAC writer: ids and EPSG codes
// (src/geonexus/adapters/stac_write.py).
module StacText {
  import opened Wrappers
  import opened Text

  predicate Allowed(c: char) {
    IsLetter(c) || IsDigit(c) || c in {'.', '_', '~', '-'}
  }

  predicate Disallowed(c: char) {
    !Allowed(c)
  }

  /** Each run of other characters becomes one hyphen. */
  function Sanitize(s: string): string
    decreases |s|
  {
    if s == "" then ""
    else if Allowed(s[0]) then [s[0]] + Sanitize(s[1..])
    else
      var j := Run(s, 0, Disallowed);
      assert j > 0;
      "-" + Sanitize(s[j..])
  }

  lemma {:induction false} SanitizeAllowed(s: string)
    ensures All(Sanitize(s), Allowed)
    ensures (Sanitize(s) == "") == (s == "")
    decreases |s|
  {
    if s != "" {
      if Allowed(s[0]) {
        SanitizeAllowed(s[1..]);
      } else {
        SanitizeAllowed(s[Run(s, 0, Disallowed)..]);
      }
    }
  }

  /** Exactly the ids of allowed characters stay as they are. */
  lemma {:induction false} SanitizeKeepsExactly(s: string)
    ensures Sanitize(s) == s <==> All(s, Allowed)
    decreases |s|
  {
    SanitizeAllowed(s);
    if s != "" && Allowed(s[0]) {
      SanitizeKeepsExactly(s[1..]);
      assert s == [s[0]] + s[1..];
      assert All(s, Allowed) <==> All(s[1..], Allowed) by {
        assert forall k :: 1 <= k < |s| ==> s[k] == s[1..][k - 1];
      }
    }
  }

  lemma SanitizeTwice(s: string)
    ensures Sanitize(Sanitize(s)) == Sanitize(s)
  {
    SanitizeAllowed(s);
    SanitizeKeepsExactly(Sanitize(s));
  }

  /** The characters of an id. */
  predicate IdCharacter(c: char) {
    'a' <= c <= 'z' || 'A' <= c <= 'Z' || '0' <= c <= '9' || c == '.' || c == '_' || c == '~' || c == '-'
  }

  /** After a stretch of id characters, a whole run of others becomes one hyphen,
      and the rest is treated likewise. */
  lemma {:induction false} SanitizeRun(a: string, run: string, b: string)
    requires forall k :: 0 <= k < |a| ==> IdCharacter(a[k])
    requires run != "" && forall k :: 0 <= k < |run| ==> !IdCharacter(run[k])
    requires b != "" ==> IdCharacter(b[0])
    ensures Sanitize(a + run + b) == a + "-" + Sanitize(b)
  {
    var s := a + run + b;
    if a != "" {
      assert s[1..] == a[1..] + run + b;
      SanitizeRun(a[1..], run, b);
    } else {
      assert s[0] == run[0] && s[0..|run|] == run && s[|run|..] == b;
      RunIs(s, 0, |run|, Disallowed);
    }
  }

  // ---------------------------------------------------------------------
  // EPSG codes
  // ---------------------------------------------------------------------

  predicate SameLetter(c: char, upper: char) {
    c == upper || ('A' <= upper <= 'Z' && c as int == upper as int + 32)
  }

  /** "EPSG:" in any case at position `i`, followed by a digit. */
  predicate CodeAt(s: string, i: nat) {
    && i + 5 < |s|
    && SameLetter(s[i], 'E') && SameLetter(s[i + 1], 'P') && SameLetter(s[i + 2], 'S') && SameLetter(s[i + 3], 'G')
    && s[i + 4] == ':' && IsDigit(s[i + 5])
  }

  /** The code at the first place from `i` on that has one. */
  function CodeFrom(s: string, i: nat): Option<nat>
    requires i <= |s|
    decreases |s| - i
  {
    if i == |s| then None
    else if CodeAt(s, i) then Some(ParseNat(s[i + 5..Run(s, i + 5, IsDigit)]))
    else CodeFrom(s, i + 1)
  }

  /** `_epsg_from_crs`; an absent or empty string has no code. */
  function Epsg(crs: Option<string>): Option<nat> {
    if crs.Some? then CodeFrom(crs.value, 0) else None
  }

  function Canonical(n: nat): string {
    "EPSG:" + Numeral(n)
  }

  lemma CanonicalCode(n: nat)
    ensures Epsg(Some(Canonical(n))) == Some(n)
  {
    var s := Canonical(n);
    var d := Numeral(n);
    assert s[5..] == d;
    assert s[5..|s|] == d;
    assert s[5] == d[0];
    assert s[0] == 'E' && s[1] == 'P' && s[2] == 'S' && s[3] == 'G' && s[4] == ':';
    assert CodeAt(s, 0);
    RunIs(s, 5, |s|, IsDigit);
    ParseNumeral(n);
  }

  /** Letter case does not matter. */
  predicate SaysEpsg(t: string) {
    && |t| == 5 && t[0] in {'E', 'e'} && t[1] in {'P', 'p'} && t[2] in {'S', 's'} && t[3] in {'G', 'g'} && t[4] == ':'
  }

  /** The code stands where the word with a digit after it first does: it is the
      number of all the digits that follow. */
  lemma {:induction false} CodeIsFirst(pre: string, word: string, digits: string, post: string)
    requires SaysEpsg(word) && digits != "" && All(digits, IsDigit) && (post != "" ==> !IsDigit(post[0]))
    requires forall i: nat :: i < |pre| ==> !CodeAt(pre + word + digits + post, i)
    ensures Epsg(Some(pre + word + digits + post)) == Some(ParseNat(digits))
  {
    var s := pre + word + digits + post;
    var n := |pre|;
    assert s[n..n + 5] == word && s[n + 5] == digits[0];
    assert forall k :: 0 <= k < 5 ==> s[n + k] == word[k];
    assert CodeAt(s, n);
    assert s[n + 5..n + 5 + |digits|] == digits;
    assert post != "" ==> s[n + 5 + |digits|] == post[0];
    RunIs(s, n + 5, n + 5 + |digits|, IsDigit);
    CodeFromFirst(s, 0, n);
  }

  lemma {:induction false} CodeFromFirst(s: string, i: nat, n: nat)
    requires i <= n < |s| && CodeAt(s, n) && forall k :: i <= k < n ==> !CodeAt(s, k)
    ensures CodeFrom(s, i) == CodeFrom(s, n)
    decreases n - i
  {
    hide CodeAt;
    if i < n {
      CodeFromFirst(s, i + 1, n);
    }
  }

  /** Without the word before a digit there is no code. */
  lemma {:induction false} NoCode(s: string, i: nat)
    requires i <= |s|
    ensures CodeFrom(s, i).None? <==> forall k :: i <= k < |s| ==> !CodeAt(s, k)
    decreases |s| - i
  {
    hide CodeAt;
    if i < |s| {
      NoCode(s, i + 1);
    }
  }

  /** A code in small letters within a longer text. */
  lemma SmallLettersCode()
    ensures Epsg(Some("urn:epsg:4326 (lon/lat)")) == Some(4326)
  {
    hide ParseNat, CodeFrom, CodeAt, Epsg;
    var s := "urn:" + "epsg:" + "4326" + " (lon/lat)";
    assert s == "urn:epsg:4326 (lon/lat)";
    forall i: nat | i < 4 ensures !CodeAt(s, i) {
      NoEHere(s, i);
    }
    CodeIsFirst("urn:", "epsg:", "4326", " (lon/lat)");
    DigitsValue();
  }

  lemma NoEHere(s: string, i: nat)
    requires i < |s| && s[i] !in {'E', 'e'}
    ensures !CodeAt(s, i)
  {
  }

  lemma DigitsValue()
    ensures ParseNat("4326") == 4326
  {
    assert "4326"[..3] == "432" && "432"[..2] == "43" && "43"[..1] == "4" && "4"[..0] == "";
    assert ParseNat("4") == 4;
    assert ParseNat("43") == 43;
    assert ParseNat("432") == 432;
  }
}
