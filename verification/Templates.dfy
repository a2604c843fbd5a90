// Output templates in step parameters, `${stepN.outputs.key}`: finding the
// steps they name and replacing them by the outputs of those steps.
module Templates {
  import opened Wrappers
  import opened Text

  /** The rendered outputs of one executed step, by key. */
  type Outputs = map<string, string>

  /** The steps that have a result, with the outputs of that result. */
  type Results = map<Id, Outputs>

  /** A JSON-like parameter value. `Scalar` stands for every value that is
      neither a string, a dict nor a list; it is never looked into. */
  datatype Value =
    | Str(text: string)
    | Dict(entries: seq<Entry>)
    | List(items: seq<Value>)
    | Scalar(atom: int)

  datatype Entry = Entry(key: string, value: Value)

  // ---------------------------------------------------------------------------
  // The pattern
  // ---------------------------------------------------------------------------

  const OPEN := "${step"
  const MIDDLE := ".outputs."
  const CLOSE := "}"

  datatype Match = Match(end: nat, step: Id, key: string)

  /** What the pattern matches: the text of one template. */
  ghost predicate IsTemplate(t: string, digits: string, key: string) {
    && |digits| > 0 && (forall k :: 0 <= k < |digits| ==> '0' <= digits[k] <= '9')
    && |key| > 0
    && (forall k :: 0 <= k < |key| ==>
          'a' <= key[k] <= 'z' || 'A' <= key[k] <= 'Z' || '0' <= key[k] <= '9' || key[k] == '_')
    && t == OPEN + digits + MIDDLE + key + CLOSE
  }

  /** The pattern tried at position `i`, with greedy runs and no backtracking. */
  function MatchAt(s: string, i: nat): (m: Option<Match>)
    requires i <= |s|
    ensures m.Some? ==> i < m.value.end <= |s|
  {
    if !At(s, i, OPEN) then None
    else
      var d := Run(s, i + |OPEN|, IsDigit);
      if d == i + |OPEN| || !At(s, d, MIDDLE) then None
      else
        var k := Run(s, d + |MIDDLE|, IsWord);
        if k == d + |MIDDLE| || !At(s, k, CLOSE) then None
        else Some(Match(k + 1, Id(ParseNat(s[i + |OPEN|..d])), s[d + |MIDDLE|..k]))
  }

  lemma Glue(s: string, a: nat, b: nat, c: nat)
    requires a <= b <= c <= |s|
    ensures s[a..c] == s[a..b] + s[b..c]
  {
  }

  /** The five parts of a match: `d` ends the number and `k` the key. */
  lemma MatchShape(s: string, i: nat) returns (d: nat, k: nat)
    requires i <= |s| && MatchAt(s, i).Some?
    ensures i + |OPEN| < d && d + |MIDDLE| < k < |s|
    ensures At(s, i, OPEN) && At(s, d, MIDDLE) && At(s, k, CLOSE)
    ensures All(s[i + |OPEN|..d], IsDigit) && All(s[d + |MIDDLE|..k], IsWord)
    ensures MatchAt(s, i).value == Match(k + 1, Id(ParseNat(s[i + |OPEN|..d])), s[d + |MIDDLE|..k])
  {
    hide Run, ParseNat, All, At;
    d := Run(s, i + |OPEN|, IsDigit);
    k := Run(s, d + |MIDDLE|, IsWord);
    AtEnds(s, i, OPEN);
    AtEnds(s, d, MIDDLE);
    AtEnds(s, k, CLOSE);
  }

  lemma AtEnds(s: string, i: nat, lit: string)
    requires At(s, i, lit)
    ensures i + |lit| <= |s|
  {
  }

  lemma FiveParts(t: string, digits: string, key: string)
    requires |digits| > 0 && All(digits, IsDigit) && |key| > 0 && All(key, IsWord)
    requires t == OPEN + digits + MIDDLE + key + CLOSE
    ensures IsTemplate(t, digits, key)
  {
  }

  /** The greedy matcher accepts only texts of the pattern ... */
  lemma MatchSound(s: string, i: nat)
    requires i <= |s| && MatchAt(s, i).Some?
    ensures var m := MatchAt(s, i).value;
            exists digits :: IsTemplate(s[i..m.end], digits, m.key) && Id(ParseNat(digits)) == m.step
  {
    hide MatchAt, ParseNat, All, IsTemplate, At;
    var m := MatchAt(s, i).value;
    var d, k := MatchShape(s, i);
    Pieces(s, i, d, k);
    FiveParts(s[i..m.end], s[i + |OPEN|..d], m.key);
  }

  /** The text from `i` to the end of the match, taken apart. */
  lemma Pieces(s: string, i: nat, d: nat, k: nat)
    requires i + |OPEN| < d && d + |MIDDLE| < k < |s|
    requires At(s, i, OPEN) && At(s, d, MIDDLE) && At(s, k, CLOSE)
    ensures s[i..k + 1] == OPEN + s[i + |OPEN|..d] + MIDDLE + s[d + |MIDDLE|..k] + CLOSE
  {
    Glue(s, i, i + |OPEN|, d);
    Glue(s, i, d, d + |MIDDLE|);
    Glue(s, i, d + |MIDDLE|, k);
    Glue(s, i, k, k + 1);
  }

  lemma Regroup(a: string, b: string, c: string, d: string, e: string)
    ensures a + b + c + d + e == a + (b + (c + (d + e)))
  {
  }

  /** ... and it accepts every one of them, wherever it stands. */
  lemma MatchComplete(s: string, i: nat, e: nat, digits: string, key: string)
    requires i <= e <= |s| && IsTemplate(s[i..e], digits, key)
    ensures MatchAt(s, i) == Some(Match(e, Id(ParseNat(digits)), key))
  {
    var d := i + |OPEN| + |digits|;
    var k := d + |MIDDLE| + |key|;
    hide MatchAt;
    Cut(s, i, e, OPEN, digits, MIDDLE, key, CLOSE);
    assert s[d] == s[d..d + |MIDDLE|][0] && s[k] == s[k..k + |CLOSE|][0];
    MatchParts(s, i, d, k);
  }

  /** A stretch that is five texts in a row, cut at its seams. */
  lemma Cut(s: string, i: nat, e: nat, a: string, b: string, c: string, d: string, f: string)
    requires i <= e <= |s| && s[i..e] == a + b + c + d + f
    ensures e == i + |a| + |b| + |c| + |d| + |f|
    ensures var m := i + |a| + |b|; var n := m + |c| + |d|;
            At(s, i, a) && s[i + |a|..m] == b && At(s, m, c) && s[m + |c|..n] == d && At(s, n, f)
  {
    Regroup(a, b, c, d, f);
    var r3 := d + f;
    var r2 := c + r3;
    var r1 := b + r2;
    AtFirst(s, i, e, a, r1);
    AtFirst(s, i + |a|, e, b, r2);
    AtFirst(s, i + |a| + |b|, e, c, r3);
    AtFirst(s, i + |a| + |b| + |c|, e, d, f);
    AtFirst(s, i + |a| + |b| + |c| + |d|, e, f, "");
  }

  /** The matcher, told where its two runs end. */
  lemma MatchParts(s: string, i: nat, d: nat, k: nat)
    requires i + |OPEN| < d && d + |MIDDLE| < k < |s|
    requires At(s, i, OPEN) && At(s, d, MIDDLE) && At(s, k, CLOSE)
    requires All(s[i + |OPEN|..d], IsDigit) && All(s[d + |MIDDLE|..k], IsWord)
    requires s[d] == '.' && s[k] == '}'
    ensures MatchAt(s, i) == Some(Match(k + 1, Id(ParseNat(s[i + |OPEN|..d])), s[d + |MIDDLE|..k]))
  {
    RunIs(s, i + |OPEN|, d, IsDigit);
    RunIs(s, d + |MIDDLE|, k, IsWord);
    hide Run, All, At, ParseNat;
    MatchFrom(s, i, d, k);
  }

  lemma MatchFrom(s: string, i: nat, d: nat, k: nat)
    requires i + |OPEN| < d && d + |MIDDLE| < k < |s|
    requires At(s, i, OPEN) && At(s, d, MIDDLE) && At(s, k, CLOSE)
    requires Run(s, i + |OPEN|, IsDigit) == d && Run(s, d + |MIDDLE|, IsWord) == k
    requires All(s[i + |OPEN|..d], IsDigit)
    ensures MatchAt(s, i) == Some(Match(k + 1, Id(ParseNat(s[i + |OPEN|..d])), s[d + |MIDDLE|..k]))
  {
    hide Run, All, At, ParseNat;
  }

  /** A template has a dollar sign at its start and nowhere else, so no template
      starts inside another one. */
  lemma NoNestedMatch(s: string, i: nat, p: nat)
    requires i <= |s| && MatchAt(s, i).Some?
    requires i < p < MatchAt(s, i).value.end
    ensures MatchAt(s, p) == None
  {
    hide MatchAt, ParseNat, All, At;
    var d, k := MatchShape(s, i);
    NoDollarInside(s, i, d, k, p);
    NoDollarNoMatch(s, p);
  }

  lemma NoDollarInside(s: string, i: nat, d: nat, k: nat, p: nat)
    requires i + |OPEN| < d && d + |MIDDLE| < k < |s| && i < p <= k
    requires At(s, i, OPEN) && At(s, d, MIDDLE) && At(s, k, CLOSE)
    requires All(s[i + |OPEN|..d], IsDigit) && All(s[d + |MIDDLE|..k], IsWord)
    ensures s[p] != '$'
  {
    if p < i + |OPEN| {
      assert s[p] == s[i..i + |OPEN|][p - i] == OPEN[p - i];
    } else if p < d {
      assert s[p] == s[i + |OPEN|..d][p - (i + |OPEN|)];
    } else if p < d + |MIDDLE| {
      assert s[p] == s[d..d + |MIDDLE|][p - d] == MIDDLE[p - d];
    } else if p < k {
      assert s[p] == s[d + |MIDDLE|..k][p - (d + |MIDDLE|)];
    } else {
      assert s[p] == s[k..k + |CLOSE|][0] == CLOSE[0];
    }
  }

  lemma NoDollarNoMatch(s: string, p: nat)
    requires p < |s| && s[p] != '$'
    ensures MatchAt(s, p) == None
  {
  }

  // ---------------------------------------------------------------------------
  // Scanning a string from the left
  // ---------------------------------------------------------------------------

  /** A scanned string is ordinary characters and template occurrences. */
  datatype Piece = Plain(c: char) | Ref(step: Id, key: string, raw: string)

  /** The non-overlapping matches from position `i` on, left to right. */
  function Scan(s: string, i: nat): (ps: seq<Piece>)
    requires i <= |s|
    decreases |s| - i
  {
    if i == |s| then []
    else
      match MatchAt(s, i)
      case Some(m) => [Ref(m.step, m.key, s[i..m.end])] + Scan(s, m.end)
      case None => [Plain(s[i])] + Scan(s, i + 1)
  }

  /** The text a piece becomes: an output if the step has a result with that
      key, the unchanged text otherwise. */
  function Render(p: Piece, results: Results): string {
    match p
    case Plain(c) => [c]
    case Ref(step, key, raw) =>
      if step in results && key in results[step] then results[step][key] else raw
  }

  function Join(ps: seq<Piece>, results: Results): string {
    if ps == [] then "" else Render(ps[0], results) + Join(ps[1..], results)
  }

  function PieceSteps(ps: seq<Piece>): set<Id> {
    set k | 0 <= k < |ps| && ps[k].Ref? :: ps[k].step
  }

  /** `_TEMPLATE_RE.sub` on one string. */
  function Substitute(s: string, results: Results): string {
    Join(Scan(s, 0), results)
  }

  // ---------------------------------------------------------------------------
  // Whole parameter values
  // ---------------------------------------------------------------------------

  /** `_template_deps`: the steps named by any template in a value. Keys of
      dicts are not searched. */
  function TemplateDeps(v: Value): set<Id> {
    match v
    case Str(s) => PieceSteps(Scan(s, 0))
    case Dict(es) => set k, d | 0 <= k < |es| && d in TemplateDeps(es[k].value) :: d
    case List(vs) => set k, d | 0 <= k < |vs| && d in TemplateDeps(vs[k]) :: d
    case Scalar(_) => {}
  }

  /** `_resolve_templates`: every template replaced, at any depth. */
  function Resolve(v: Value, results: Results): Value {
    match v
    case Str(s) => Str(Substitute(s, results))
    case Dict(es) =>
      Dict(seq(|es|, k requires 0 <= k < |es| => Entry(es[k].key, Resolve(es[k].value, results))))
    case List(vs) => List(seq(|vs|, k requires 0 <= k < |vs| => Resolve(vs[k], results)))
    case Scalar(_) => v
  }

  /** The two results say the same about step `d`. */
  predicate SameFor(r: Results, r': Results, d: Id) {
    (d in r <==> d in r') && (d in r ==> r[d] == r'[d])
  }

  // ---------------------------------------------------------------------------
  // What the scan finds
  // ---------------------------------------------------------------------------

  /** A template that names step `d` matches at position `p`. */
  ghost predicate NamesAt(s: string, p: nat, d: Id)
    requires p <= |s|
  {
    MatchAt(s, p).Some? && MatchAt(s, p).value.step == d
  }

  /** A step is found in a string exactly when some position of the string
      matches a template that names it. */
  lemma {:induction false} ScanFindsAll(s: string, i: nat, d: Id)
    requires i <= |s|
    ensures d in PieceSteps(Scan(s, i))
            <==> exists p :: i <= p <= |s| && NamesAt(s, p, d)
    decreases |s| - i
  {
    hide MatchAt;
    if i < |s| {
      var ps := Scan(s, i);
      match MatchAt(s, i) {
        case Some(m) =>
          ScanFindsAll(s, m.end, d);
          forall p | i < p < m.end ensures MatchAt(s, p) == None {
            NoNestedMatch(s, i, p);
          }
          PieceStepsCons(ps[0], Scan(s, m.end));
          assert (exists p :: i <= p <= |s| && NamesAt(s, p, d))
              <==> NamesAt(s, i, d) || exists p :: m.end <= p <= |s| && NamesAt(s, p, d);
        case None =>
          ScanFindsAll(s, i + 1, d);
          PieceStepsCons(ps[0], Scan(s, i + 1));
      }
    }
  }

  lemma PieceStepsCons(p: Piece, ps: seq<Piece>)
    ensures PieceSteps([p] + ps) == (if p.Ref? then {p.step} else {}) + PieceSteps(ps)
  {
    var all := [p] + ps;
    forall d | d in PieceSteps(ps) ensures d in PieceSteps(all) {
      var k :| 0 <= k < |ps| && ps[k].Ref? && ps[k].step == d;
      assert all[k + 1] == ps[k];
    }
    if p.Ref? {
      assert all[0] == p;
    }
  }

  /** Scanning loses nothing: with no results at all a string is unchanged. */
  lemma {:induction false} JoinRaw(s: string, i: nat)
    requires i <= |s|
    ensures Join(Scan(s, i), map[]) == s[i..]
    decreases |s| - i
  {
    if i < |s| {
      var ps := Scan(s, i);
      match MatchAt(s, i) {
        case Some(m) =>
          JoinRaw(s, m.end);
          assert ps[1..] == Scan(s, m.end);
          assert s[i..] == s[i..m.end] + s[m.end..];
        case None =>
          JoinRaw(s, i + 1);
          assert ps[1..] == Scan(s, i + 1);
          assert s[i..] == [s[i]] + s[i + 1..];
      }
    }
  }

  lemma ScanStep(s: string, i: nat)
    requires i < |s|
    ensures MatchAt(s, i).None? ==> Scan(s, i) == [Plain(s[i])] + Scan(s, i + 1)
    ensures MatchAt(s, i).Some? ==>
              var m := MatchAt(s, i).value;
              Scan(s, i) == [Ref(m.step, m.key, s[i..m.end])] + Scan(s, m.end)
  {
    hide MatchAt;
  }

  lemma NothingToScan(s: string)
    ensures Scan(s, |s|) == []
  {
  }

  /** Scanning is local: what stands before position `n` does not matter. */
  lemma {:induction false} ScanSuffix(s: string, n: nat, i: nat)
    requires n <= i <= |s|
    ensures Scan(s, i) == Scan(s[n..], i - n)
    decreases |s| - i
  {
    hide MatchAt, Scan;
    var rest := s[n..];
    if i == |s| {
      NothingToScan(s);
      NothingToScan(rest);
    } else {
      MatchShift(s, n, i);
      ScanStep(s, i);
      ScanStep(rest, i - n);
      match MatchAt(s, i) {
        case Some(m) =>
          ScanSuffix(s, n, m.end);
          assert s[i..m.end] == rest[i - n..m.end - n];
        case None =>
          ScanSuffix(s, n, i + 1);
      }
    }
  }

  lemma MatchShift(s: string, n: nat, i: nat)
    requires n <= i <= |s|
    ensures MatchAt(s, i).None? <==> MatchAt(s[n..], i - n).None?
    ensures MatchAt(s, i).Some? ==>
              var m := MatchAt(s, i).value;
              MatchAt(s[n..], i - n) == Some(Match(m.end - n, m.step, m.key))
  {
    hide MatchAt;
    var u := s[n..];
    if MatchAt(s, i).Some? {
      var m := MatchAt(s, i).value;
      MatchMoves(s, i, u, i - n);
    } else if MatchAt(u, i - n).Some? {
      MatchMoves(u, i - n, s, i);
    }
  }

  /** A match moves along with the text it matches. */
  lemma MatchMoves(s: string, i: nat, u: string, j: nat)
    requires i <= |s| && j <= |u| && s[i..] == u[j..] && MatchAt(s, i).Some?
    ensures var m := MatchAt(s, i).value;
            MatchAt(u, j) == Some(Match(m.end - i + j, m.step, m.key))
  {
    hide MatchAt;
    var m := MatchAt(s, i).value;
    MatchSound(s, i);
    var digits :| IsTemplate(s[i..m.end], digits, m.key) && Id(ParseNat(digits)) == m.step;
    assert u[j..m.end - i + j] == u[j..][..m.end - i] == s[i..][..m.end - i] == s[i..m.end];
    MatchComplete(u, j, m.end - i + j, digits, m.key);
  }

  /** No template starts before position `n`. */
  ghost predicate NoneBefore(s: string, n: nat)
    requires n <= |s|
  {
    forall p :: 0 <= p < n ==> MatchAt(s, p).None?
  }

  lemma NoneBeforeRest(s: string, n: nat)
    requires 0 < n <= |s| && NoneBefore(s, n)
    ensures MatchAt(s, 0).None? && NoneBefore(s[1..], n - 1)
  {
    hide MatchAt;
    forall p | 0 <= p < n - 1 ensures MatchAt(s[1..], p).None? {
      MatchShift(s, 1, p + 1);
    }
  }

  /** What substitution does to a string whose first template is `t`: the text
      before it, stray dollar signs included, is copied, the template becomes
      the named output (or stays when the step has no such output), and the rest
      is substituted likewise. */
  lemma {:induction false} SubstituteFirst(pre: string, t: string, post: string, digits: string, key: string, results: Results)
    requires NoneBefore(pre + t + post, |pre|) && IsTemplate(t, digits, key)
    ensures var d := Id(ParseNat(digits));
            Substitute(pre + t + post, results)
            == pre + (if d in results && key in results[d] then results[d][key] else t) + Substitute(post, results)
  {
    hide MatchAt, IsTemplate, Substitute, NoneBefore;
    var s := pre + t + post;
    if pre == [] {
      SubstituteHead(t, post, digits, key, results);
      assert s == t + post;
    } else {
      assert s[0] == pre[0] && s[1..] == pre[1..] + t + post;
      NoneBeforeRest(s, |pre|);
      SubstituteChar(s, results);
      SubstituteFirst(pre[1..], t, post, digits, key, results);
    }
  }

  lemma SubstituteChar(s: string, results: Results)
    requires s != [] && MatchAt(s, 0).None?
    ensures Substitute(s, results) == [s[0]] + Substitute(s[1..], results)
  {
    hide MatchAt;
    ScanSuffix(s, 1, 1);
    assert Scan(s, 0)[1..] == Scan(s, 1);
  }

  lemma SubstituteHead(t: string, post: string, digits: string, key: string, results: Results)
    requires IsTemplate(t, digits, key)
    ensures var d := Id(ParseNat(digits));
            Substitute(t + post, results)
            == (if d in results && key in results[d] then results[d][key] else t) + Substitute(post, results)
  {
    hide MatchAt, IsTemplate;
    var s := t + post;
    assert s[0..|t|] == t;
    MatchComplete(s, 0, |t|, digits, key);
    ScanSuffix(s, |t|, |t|);
    assert s[|t|..] == post;
    assert Scan(s, 0)[1..] == Scan(s, |t|);
  }

  /** A string without a template is not changed. */
  lemma {:induction false} SubstituteNone(s: string, results: Results)
    requires NoneBefore(s, |s|)
    ensures Substitute(s, results) == s
  {
    hide MatchAt, NoneBefore, Substitute;
    if s == [] {
      NothingToSubstitute(results);
    } else {
      NoneBeforeRest(s, |s|);
      SubstituteChar(s, results);
      SubstituteNone(s[1..], results);
    }
  }

  lemma NothingToSubstitute(results: Results)
    ensures Substitute("", results) == ""
  {
  }

  // ---------------------------------------------------------------------------
  // Template inference and template resolution agree
  // ---------------------------------------------------------------------------

  lemma {:induction false} JoinFrame(ps: seq<Piece>, r: Results, r': Results)
    requires forall d :: d in PieceSteps(ps) ==> SameFor(r, r', d)
    ensures Join(ps, r) == Join(ps, r')
  {
    if ps != [] {
      assert ps == [ps[0]] + ps[1..];
      PieceStepsCons(ps[0], ps[1..]);
      JoinFrame(ps[1..], r, r');
    }
  }

  /** Resolution depends on nothing but the results of the steps that template
      inference finds. */
  lemma {:induction false} ResolveFrame(v: Value, r: Results, r': Results)
    requires forall d :: d in TemplateDeps(v) ==> SameFor(r, r', d)
    ensures Resolve(v, r) == Resolve(v, r')
  {
    match v {
      case Str(s) => JoinFrame(Scan(s, 0), r, r');
      case Dict(es) =>
        forall k | 0 <= k < |es| ensures Resolve(es[k].value, r) == Resolve(es[k].value, r') {
          ResolveFrame(es[k].value, r, r');
        }
      case List(vs) =>
        forall k | 0 <= k < |vs| ensures Resolve(vs[k], r) == Resolve(vs[k], r') {
          ResolveFrame(vs[k], r, r');
        }
      case Scalar(_) =>
    }
  }

  /** The value found by going down from `v`, into the given entry or item each time. */
  ghost function Place(v: Value, path: seq<nat>): Option<Value> {
    if path == [] then Some(v)
    else
      match v
      case Dict(es) => if path[0] < |es| then Place(es[path[0]].value, path[1..]) else None
      case List(vs) => if path[0] < |vs| then Place(vs[path[0]], path[1..]) else None
      case _ => None
  }

  /** What stands where `was` stood: strings are substituted, and everything else
      is as it was, dicts with their keys and lists with their length. */
  predicate StandsFor(was: Value, now: Value, results: Results) {
    match was
    case Str(s) => now == Str(Substitute(s, results))
    case Scalar(_) => now == was
    case List(vs) => now.List? && |now.items| == |vs|
    case Dict(es) =>
      now.Dict? && |now.entries| == |es| && forall k :: 0 <= k < |es| ==> now.entries[k].key == es[k].key
  }

  /** Resolution replaces strings wherever they stand, at any depth, and moves nothing. */
  lemma {:induction false} ResolveEverywhere(v: Value, results: Results, path: seq<nat>)
    ensures Place(v, path).None? <==> Place(Resolve(v, results), path).None?
    ensures Place(v, path).Some? ==>
              StandsFor(Place(v, path).value, Place(Resolve(v, results), path).value, results)
  {
    hide Substitute;
    if path != [] {
      match v {
        case Dict(es) => if path[0] < |es| { ResolveEverywhere(es[path[0]].value, results, path[1..]); }
        case List(vs) => if path[0] < |vs| { ResolveEverywhere(vs[path[0]], results, path[1..]); }
        case _ =>
      }
    }
  }

  /** With no results resolution is the identity. */
  lemma {:induction false} ResolveNothing(v: Value)
    ensures Resolve(v, map[]) == v
  {
    match v {
      case Str(s) =>
        JoinRaw(s, 0);
        assert s[0..] == s;
      case Dict(es) =>
        forall k | 0 <= k < |es| ensures Resolve(es[k].value, map[]) == es[k].value {
          ResolveNothing(es[k].value);
        }
        assert Resolve(v, map[]).entries == es;
      case List(vs) =>
        forall k | 0 <= k < |vs| ensures Resolve(vs[k], map[]) == vs[k] {
          ResolveNothing(vs[k]);
        }
        assert Resolve(v, map[]).items == vs;
      case Scalar(_) =>
    }
  }

  /** The empty string for every key a piece list asks of step `d`. */
  ghost function Blank(ps: seq<Piece>): Outputs {
    map j | 0 <= j < |ps| && ps[j].Ref? :: ps[j].key := ""
  }

  lemma {:induction false} JoinShrinks(ps: seq<Piece>, d: Id, blank: Outputs)
    requires forall j :: 0 <= j < |ps| && ps[j].Ref? ==> |ps[j].raw| > 0
    requires forall j :: 0 <= j < |ps| && ps[j].Ref? ==> ps[j].key in blank
    requires forall k :: k in blank ==> blank[k] == ""
    ensures |Join(ps, map[d := blank])| <= |Join(ps, map[])|
    ensures d in PieceSteps(ps) ==> |Join(ps, map[d := blank])| < |Join(ps, map[])|
  {
    if ps != [] {
      assert ps == [ps[0]] + ps[1..];
      PieceStepsCons(ps[0], ps[1..]);
      JoinShrinks(ps[1..], d, blank);
    }
  }

  lemma {:induction false} ScanRaw(s: string, i: nat)
    requires i <= |s|
    ensures forall j :: 0 <= j < |Scan(s, i)| && Scan(s, i)[j].Ref? ==> |Scan(s, i)[j].raw| > 0
    decreases |s| - i
  {
    if i < |s| {
      match MatchAt(s, i) {
        case Some(m) => ScanRaw(s, m.end);
        case None => ScanRaw(s, i + 1);
      }
    }
  }

  /** Inference finds no step too many: for each step found there are outputs of
      that one step which change the resolved value. */
  lemma {:induction false} ResolveNeedsDep(v: Value, d: Id) returns (o: Outputs)
    requires d in TemplateDeps(v)
    ensures Resolve(v, map[d := o]) != Resolve(v, map[])
  {
    match v {
      case Str(s) =>
        var ps := Scan(s, 0);
        o := Blank(ps);
        ScanRaw(s, 0);
        JoinShrinks(ps, d, o);
      case Dict(es) =>
        var k :| 0 <= k < |es| && d in TemplateDeps(es[k].value);
        o := ResolveNeedsDep(es[k].value, d);
        assert Resolve(v, map[d := o]).entries[k] != Resolve(v, map[]).entries[k];
      case List(vs) =>
        var k :| 0 <= k < |vs| && d in TemplateDeps(vs[k]);
        o := ResolveNeedsDep(vs[k], d);
        assert Resolve(v, map[d := o]).items[k] != Resolve(v, map[]).items[k];
    }
  }

  /** Changing the outputs of step `d` alone can change what the value resolves to. */
  ghost predicate Matters(v: Value, d: Id) {
    exists r: Results, r': Results ::
      (forall e :: e != d ==> SameFor(r, r', e)) && Resolve(v, r) != Resolve(v, r')
  }

  /** The two halves together: `d` is inferred from `v` exactly when some change
      of the outputs of `d` alone can change what `v` resolves to. */
  lemma DepsExact(v: Value, d: Id)
    ensures d in TemplateDeps(v) <==> Matters(v, d)
  {
    if d in TemplateDeps(v) {
      var o := ResolveNeedsDep(v, d);
      var r: Results, r': Results := map[d := o], map[];
      assert forall e :: e != d ==> SameFor(r, r', e);
    } else {
      forall r: Results, r': Results | forall e :: e != d ==> SameFor(r, r', e)
        ensures Resolve(v, r) == Resolve(v, r')
      {
        ResolveFrame(v, r, r');
      }
    }
  }
}
