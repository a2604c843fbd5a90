// How often a token occurs, and when that shows in the embedding
// (src/geonexus/gaag/embed.py).
module EmbedCounts {
  import opened Embed
  import opened Text

  // ---------------------------------------------------------------------
  // Each token once
  // ---------------------------------------------------------------------

  /** The tokens, each once. */
  function Dedup(tokens: seq<string>): (once: seq<string>)
    ensures forall t :: t in once <==> t in tokens
    ensures |once| <= |tokens|
  {
    if tokens == [] then []
    else (if tokens[0] in tokens[1..] then [] else [tokens[0]]) + Dedup(tokens[1..])
  }

  ghost predicate NoRepeat(tokens: seq<string>) {
    forall i, j :: 0 <= i < j < |tokens| ==> tokens[i] != tokens[j]
  }

  /** All tokens occur equally often. */
  ghost predicate Even(tokens: seq<string>) {
    forall a, b :: a in tokens && b in tokens ==> multiset(tokens)[a] == multiset(tokens)[b]
  }

  lemma {:induction false} DedupOnce(tokens: seq<string>)
    ensures forall t :: t in tokens ==> multiset(Dedup(tokens))[t] == 1
  {
    if tokens != [] {
      var rest := tokens[1..];
      DedupOnce(rest);
      forall t | t in tokens ensures multiset(Dedup(tokens))[t] == 1 {
        assert t in rest || (t == tokens[0] && t !in Dedup(rest));
      }
    }
  }

  lemma {:induction false} DedupKeepsExactly(tokens: seq<string>)
    ensures NoRepeat(tokens) <==> |Dedup(tokens)| == |tokens|
    ensures NoRepeat(tokens) ==> Dedup(tokens) == tokens
  {
    if tokens != [] {
      var rest := tokens[1..];
      assert forall i :: 0 <= i < |rest| ==> rest[i] == tokens[i + 1];
      DedupKeepsExactly(rest);
      if tokens[0] in rest {
        var k :| 0 <= k < |rest| && rest[k] == tokens[0];
        assert tokens[0] == tokens[k + 1];
      } else if NoRepeat(rest) {
        forall i, j | 0 <= i < j < |tokens| ensures tokens[i] != tokens[j] {
          assert tokens[j] == rest[j - 1];
          assert i > 0 ==> tokens[i] == rest[i - 1];
        }
      }
    }
  }

  // ---------------------------------------------------------------------
  // Digests that tell tokens apart
  // ---------------------------------------------------------------------

  /** 32 bytes with every bit set. */
  const ONES: seq<bv8> := seq(32, _ => 255)

  /** The same, but for the byte that decides component 1. */
  const DIP: seq<bv8> := ONES[1 := 0]

  function AllOnes(): string -> seq<bv8> {
    (t: string) => ONES
  }

  function DipsAt(a: string): string -> seq<bv8> {
    (t: string) => if t == a then DIP else ONES
  }

  lemma ShapedDigests(a: string)
    ensures IsDigest(AllOnes()) && IsDigest(DipsAt(a))
    ensures forall t :: Sign(AllOnes()(t), 0) == 1 && Sign(DipsAt(a)(t), 0) == 1
    ensures forall t :: Sign(DipsAt(a)(t), 1) == if t == a then -1 else 1
  {
    assert ONES[0] == 255 && ONES[1] == 255 && DIP[0] == 255 && DIP[1] == 0;
    assert Sign(ONES, 0) == 1 && Sign(DIP, 0) == 1 && Sign(ONES, 1) == 1 && Sign(DIP, 1) == -1;
  }

  lemma {:induction false} AllPlus(tokens: seq<string>, digest: string -> seq<bv8>)
    requires IsDigest(digest) && forall t :: Sign(digest(t), 0) == 1
    ensures Component(tokens, 0, digest) == |tokens|
  {
    hide Sign;
    if tokens != [] {
      AllPlus(tokens[1..], digest);
    }
  }

  lemma {:induction false} OneMinus(tokens: seq<string>, a: string, digest: string -> seq<bv8>)
    requires IsDigest(digest) && forall t :: Sign(digest(t), 1) == if t == a then -1 else 1
    ensures Component(tokens, 1, digest) == |tokens| - 2 * multiset(tokens)[a]
  {
    hide Sign;
    if tokens != [] {
      OneMinus(tokens[1..], a, digest);
      assert tokens == [tokens[0]] + tokens[1..];
    }
  }

  // ---------------------------------------------------------------------
  // The sums
  // ---------------------------------------------------------------------

  /** The sum of token directions is said to take each distinct token once. That
      holds, whatever the digests, exactly if no token occurs twice. */
  lemma SumsShowExactly(tokens: seq<string>, dim: nat)
    requires dim > 0
    ensures (forall digest | IsDigest(digest) :: Vector(tokens, dim, digest) == Vector(Dedup(tokens), dim, digest))
       <==> NoRepeat(tokens)
  {
    hide Vector;
    DedupKeepsExactly(tokens);
    ShapedDigests("");
    var ones := AllOnes();
    AllPlus(tokens, ones);
    AllPlus(Dedup(tokens), ones);
    if Vector(tokens, dim, ones) == Vector(Dedup(tokens), dim, ones) {
      assert Vector(tokens, dim, ones)[0] == |tokens| as real;
      assert Vector(Dedup(tokens), dim, ones)[0] == |Dedup(tokens)| as real;
    }
  }

  // ---------------------------------------------------------------------
  // The embedding
  // ---------------------------------------------------------------------

  function Copies(tokens: seq<string>, m: nat): seq<string> {
    if m == 0 then [] else tokens + Copies(tokens, m - 1)
  }

  lemma {:induction false} CopiesCount(tokens: seq<string>, m: nat, t: string)
    ensures multiset(Copies(tokens, m))[t] == m * multiset(tokens)[t]
  {
    if m > 0 {
      CopiesCount(tokens, m - 1, t);
      OneMore(m, multiset(tokens)[t]);
      CountConcat(tokens, Copies(tokens, m - 1), t);
    }
  }

  lemma OneMore(m: nat, x: nat)
    requires m > 0
    ensures m * x == x + (m - 1) * x
  {
  }

  lemma CountConcat(s: seq<string>, t: seq<string>, x: string)
    ensures multiset(s + t)[x] == multiset(s)[x] + multiset(t)[x]
  {
    assert multiset(s + t) == multiset(s) + multiset(t);
  }

  lemma {:induction false} CopiesComponent(tokens: seq<string>, m: nat, i: nat, digest: string -> seq<bv8>)
    requires IsDigest(digest)
    ensures Component(Copies(tokens, m), i, digest) == m * Component(tokens, i, digest)
  {
    hide Component;
    if m == 0 {
      assert Component([], i, digest) == 0 by {
        NoTokens(i, digest);
      }
    } else {
      CopiesComponent(tokens, m - 1, i, digest);
      ComponentConcat(tokens, Copies(tokens, m - 1), i, digest);
    }
  }

  lemma NoTokens(i: nat, digest: string -> seq<bv8>)
    requires IsDigest(digest)
    ensures Component([], i, digest) == 0
  {
  }

  /** Tokens that occur equally often are copies of the tokens taken once. */
  lemma EvenIsCopies(tokens: seq<string>, m: nat)
    requires forall t :: t in tokens ==> multiset(tokens)[t] == m
    ensures multiset(tokens) == multiset(Copies(Dedup(tokens), m))
  {
    hide Copies, Dedup;
    DedupOnce(tokens);
    forall t ensures multiset(tokens)[t] == multiset(Copies(Dedup(tokens), m))[t] {
      CopiesCount(Dedup(tokens), m, t);
      assert t !in tokens ==> t !in Dedup(tokens) && multiset(tokens)[t] == 0 && multiset(Dedup(tokens))[t] == 0;
    }
  }

  /** Two vectors of which one is `m` times the other. */
  ghost predicate Multiple(v: seq<real>, w: seq<real>, m: real) {
    |v| == |w| && forall i :: 0 <= i < |v| ==> v[i] == Mul(m, w[i])
  }

  lemma {:induction false} MultipleDot(v: seq<real>, w: seq<real>, m: real)
    requires Multiple(v, w, m)
    ensures Dot(v, v) == Mul(m, m) * Dot(w, w)
  {
    hide Mul;
    if v != [] {
      assert v[0] == Mul(m, w[0]);
      assert forall i :: 0 <= i < |v| - 1 ==> v[1..][i] == v[i + 1] && w[1..][i] == w[i + 1];
      MultipleDot(v[1..], w[1..], m);
      AddFactor(m, w[0], Dot(w[1..], w[1..]));
    }
  }

  lemma AddFactor(m: real, x: real, rest: real)
    ensures Mul(m, x) * Mul(m, x) + Mul(m, m) * rest == Mul(m, m) * (x * x + rest)
  {
    Expand(Mul(m, m), x * x, rest);
    assert (m * x) * (m * x) == (m * m) * (x * x);
  }

  /** Normalising forgets a positive factor. */
  lemma MultipleNormalised(v: seq<real>, w: seq<real>, m: real, root: real -> real)
    requires Multiple(v, w, m) && m > 0.0 && IsRoot(root)
    ensures Divide(v, Norm(v, root)) == Divide(w, Norm(w, root))
  {
    hide Dot, Norm, Divide, IsRoot;
    MultipleDot(v, w, m);
    SquaresNonNegative(w);
    NormPositive(w, root);
    NormPositive(v, root);
    var n, k := Norm(v, root), Norm(w, root);
    if Dot(w, w) > 0.0 {
      NormScales(w, v, m, root);
      forall i | 0 <= i < |v| ensures v[i] / n == w[i] / k {
        Cancel(w[i], m, k);
      }
    } else {
      assert Dot(v, v) == 0.0;
      forall i | 0 <= i < |v| ensures v[i] / n == w[i] / k {
        assert w[i] == 0.0 && v[i] == 0.0;
      }
    }
  }

  lemma EvenIsEnough(tokens: seq<string>, dim: nat, digest: string -> seq<bv8>, root: real -> real)
    requires IsDigest(digest) && IsRoot(root) && Even(tokens)
    ensures Embedding(tokens, dim, digest, root) == Embedding(Dedup(tokens), dim, digest, root)
  {
    hide IsRoot, Norm, Divide, Dedup, Copies, Component;
    if tokens == [] {
      assert Dedup(tokens) == [];
      return;
    }
    var m := multiset(tokens)[tokens[0]];
    EvenIsCopies(tokens, m);
    var v, w := Vector(tokens, dim, digest), Vector(Dedup(tokens), dim, digest);
    forall i | 0 <= i < dim ensures v[i] == Mul(m as real, w[i]) {
      ComponentPermutes(tokens, Copies(Dedup(tokens), m), i, digest);
      CopiesComponent(Dedup(tokens), m, i, digest);
    }
    MultipleNormalised(v, w, m as real, root);
  }

  /** Vectors that agree once normalised are parallel. */
  lemma ParallelSums(v: seq<real>, w: seq<real>, n: real, k: real)
    requires |v| == |w| >= 2 && n > 0.0 && k > 0.0 && Divide(v, n) == Divide(w, k)
    ensures v[0] * w[1] == w[0] * v[1]
  {
    hide Divide;
    var x, y := Divide(v, n)[0], Divide(v, n)[1];
    assert x == v[0] / n && x == w[0] / k && y == v[1] / n && y == w[1] / k;
    assert v[0] == x * n && w[0] == x * k && v[1] == y * n && w[1] == y * k;
    assert (x * n) * (y * k) == (x * k) * (y * n);
  }

  /** The vectors (t0, t1) and (o0, o1) are parallel. */
  predicate Parallel(t0: int, t1: int, o0: int, o1: int) {
    t0 as real * o1 as real == o0 as real * t1 as real
  }

  /** A digest under which the tokens have to be the copies of `a`. */
  lemma CountFromEmbedding(tokens: seq<string>, a: string, dim: nat, root: real -> real)
    requires dim >= 2 && IsRoot(root) && a in tokens && IsDigest(DipsAt(a))
    requires Embedding(tokens, dim, DipsAt(a), root) == Embedding(Dedup(tokens), dim, DipsAt(a), root)
    ensures |tokens| == |Dedup(tokens)| * multiset(tokens)[a]
  {
    hide Sign, Component, Dedup, IsRoot, Embedding, DipsAt, IsDigest, Parallel;
    var digest, once := DipsAt(a), Dedup(tokens);
    SumsCross(tokens, once, dim, digest, root);
    ShapedDigests(a);
    DedupOnce(tokens);
    AllPlus(tokens, digest);
    AllPlus(once, digest);
    OneMinus(tokens, a, digest);
    OneMinus(once, a, digest);
    assert multiset(once)[a] == 1;
    FromCrossProduct(Component(tokens, 0, digest), Component(tokens, 1, digest), Component(once, 0, digest),
                     Component(once, 1, digest), multiset(tokens)[a]);
  }

  lemma SumsCross(tokens: seq<string>, once: seq<string>, dim: nat, digest: string -> seq<bv8>, root: real -> real)
    requires dim >= 2 && IsRoot(root) && IsDigest(digest)
    requires Embedding(tokens, dim, digest, root) == Embedding(once, dim, digest, root)
    ensures Parallel(Component(tokens, 0, digest), Component(tokens, 1, digest),
                     Component(once, 0, digest), Component(once, 1, digest))
  {
    hide Component, Norm, IsRoot, Divide;
    var v, w := Vector(tokens, dim, digest), Vector(once, dim, digest);
    NormPositive(v, root);
    NormPositive(w, root);
    ParallelSums(v, w, Norm(v, root), Norm(w, root));
  }

  lemma FromCrossProduct(t0: int, t1: int, o0: int, o1: int, m: int)
    requires Parallel(t0, t1, o0, o1)
    requires t1 == t0 - 2 * m && o1 == o0 - 2
    ensures t0 == o0 * m
  {
    assert t0 as real * o1 as real == (t0 * o1) as real;
    assert o0 as real * t1 as real == (o0 * t1) as real;
    assert t0 * o1 == t0 * o0 - 2 * t0;
    assert o0 * t1 == o0 * t0 - 2 * (o0 * m);
  }

  /** The embedding is said to take each distinct token once. That holds,
      whatever the digests, exactly if all tokens occur equally often: then
      normalising takes the common factor away. */
  lemma CountsShowExactly(tokens: seq<string>, dim: nat, root: real -> real)
    requires dim >= 2 && IsRoot(root)
    ensures (forall digest | IsDigest(digest) ::
               Embedding(tokens, dim, digest, root) == Embedding(Dedup(tokens), dim, digest, root))
       <==> Even(tokens)
  {
    hide Embedding, Dedup, Even, IsRoot;
    if forall digest | IsDigest(digest) ::
         Embedding(tokens, dim, digest, root) == Embedding(Dedup(tokens), dim, digest, root)
    {
      forall a | a in tokens ensures |tokens| == |Dedup(tokens)| * multiset(tokens)[a] {
        ShapedDigests(a);
        CountFromEmbedding(tokens, a, dim, root);
      }
      EvenFromSize(tokens, |Dedup(tokens)|);
    }
    if Even(tokens) {
      forall digest | IsDigest(digest)
        ensures Embedding(tokens, dim, digest, root) == Embedding(Dedup(tokens), dim, digest, root)
      {
        EvenIsEnough(tokens, dim, digest, root);
      }
    }
  }

  lemma EvenFromSize(tokens: seq<string>, D: nat)
    requires forall a :: a in tokens ==> |tokens| == D * multiset(tokens)[a]
    ensures Even(tokens)
  {
    forall a, b | a in tokens && b in tokens ensures multiset(tokens)[a] == multiset(tokens)[b] {
      SameFactor(D, multiset(tokens)[a], multiset(tokens)[b]);
    }
  }

  lemma SameFactor(D: nat, x: nat, y: nat)
    requires D * x == D * y && D * x > 0
    ensures x == y
  {
    Monotone(D, x, y);
    Monotone(D, y, x);
  }

  lemma Monotone(D: nat, x: nat, y: nat)
    ensures D > 0 && x < y ==> D * x < D * y
    ensures D == 0 ==> D * x == 0
  {
    if D > 0 && x < y {
      assert D * y == D * x + D * (y - x);
    }
  }

  /** The directions of two tokens coincide in the first `dim` components. */
  ghost predicate SameDirection(x: string, y: string, dim: nat, digest: string -> seq<bv8>)
    requires IsDigest(digest)
  {
    forall i :: 0 <= i < dim ==> Sign(digest(x), i) == Sign(digest(y), i)
  }

  /** For a given digest, a token said twice next to another one shows exactly
      if their directions differ in some component. */
  lemma TwiceShowsExactly(x: string, y: string, dim: nat, digest: string -> seq<bv8>, root: real -> real)
    requires IsDigest(digest) && IsRoot(root)
    ensures Embedding([x, x, y], dim, digest, root) == Embedding([x, y], dim, digest, root)
       <==> SameDirection(x, y, dim, digest)
  {
    hide Sign, Component, Norm, IsRoot, Divide;
    var v, w := Vector([x, x, y], dim, digest), Vector([x, y], dim, digest);
    var n, k := Norm(v, root), Norm(w, root);
    NormPositive(v, root);
    NormPositive(w, root);
    forall i | 0 <= i < dim
      ensures v[i] == (2 * Sign(digest(x), i) + Sign(digest(y), i)) as real
      ensures w[i] == (Sign(digest(x), i) + Sign(digest(y), i)) as real
    {
      ThreeTokens(x, y, i, digest);
    }
    if SameDirection(x, y, dim, digest) {
      forall i | 0 <= i < dim ensures v[i] == Mul(1.5, w[i]) {
        assert Sign(digest(x), i) == Sign(digest(y), i);
      }
      MultipleNormalised(v, w, 1.5, root);
    } else {
      var i :| 0 <= i < dim && Sign(digest(x), i) != Sign(digest(y), i);
      assert w[i] == 0.0 && v[i] == Sign(digest(x), i) as real;
      assert Divide(w, k)[i] == 0.0;
      NonZeroQuotient(v[i], n);
    }
  }

  lemma ThreeTokens(x: string, y: string, i: nat, digest: string -> seq<bv8>)
    requires IsDigest(digest)
    ensures Component([x, x, y], i, digest) == 2 * Sign(digest(x), i) + Sign(digest(y), i)
    ensures Component([x, y], i, digest) == Sign(digest(x), i) + Sign(digest(y), i)
  {
    hide Sign;
    assert [x, x, y][1..] == [x, y] && [x, y][1..] == [y] && [y][1..] == [];
    assert Component([y], i, digest) == Sign(digest(y), i) + Component([], i, digest);
    assert Component([x, y], i, digest) == Sign(digest(x), i) + Component([y], i, digest);
    assert Component([x, x, y], i, digest) == Sign(digest(x), i) + Component([x, y], i, digest);
  }

  lemma NonZeroQuotient(x: real, n: real)
    requires x != 0.0 && n > 0.0
    ensures x / n != 0.0
  {
    var q := x / n;
    assert q * n == x;
  }

  /** The text "a a b" embeds as its distinct tokens do exactly if the digests
      of "a" and "b" agree in every bit that the embedding reads. */
  lemma RepetitionShows(dim: nat, digest: string -> seq<bv8>, root: real -> real)
    requires IsDigest(digest) && IsRoot(root)
    ensures Embedding(Tokens("a a b"), dim, digest, root) == Embedding(Dedup(Tokens("a a b")), dim, digest, root)
       <==> SameDirection("a", "b", dim, digest)
  {
    hide IsRoot, Embedding, IsDigest, SameDirection, Tokens;
    TokensOfExample();
    DedupOfExample();
    TwiceShowsExactly("a", "b", dim, digest, root);
  }

  lemma DedupOfExample()
    ensures Dedup(["a", "a", "b"]) == ["a", "b"]
  {
    var s := ["a", "a", "b"];
    assert s[1..] == ["a", "b"] && ["a", "b"][1..] == ["b"] && ["b"][1..] == [];
    assert "a" in ["a", "b"];
    assert Dedup(["b"]) == ["b"];
    assert Dedup(["a", "b"]) == ["a", "b"];
  }

  lemma TokensOfExample()
    ensures Tokens("a a b") == ["a", "a", "b"]
  {
    hide Words;
    assert Lower("a a b") == "a a b";
    assert "a a b" == "a" + [' '] + ("a" + [' '] + "b");
    WordsOfPhrases("a", ' ', "a" + [' '] + "b");
    WordsOfPhrases("a", ' ', "b");
    OneWord("a");
    OneWord("b");
  }
}
