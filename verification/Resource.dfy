// Matching a model's declared runtime against compute nodes
// (src/geonexus/resource.py).
module Resource {
  import opened Wrappers
  import opened Text

  // ---------------------------------------------------------------------
  // Names of GPUs
  // ---------------------------------------------------------------------

  predicate IsBlank(c: char) {
    c == ' ' || '\t' <= c <= '\r' || '\U{1c}' <= c <= '\U{1f}'
  }

  function Strip(s: string): string {
    if s != [] && IsBlank(s[0]) then Strip(s[1..])
    else if s != [] && IsBlank(s[|s| - 1]) then Strip(s[..|s| - 1])
    else s
  }

  /** `str(value or "").strip().lower()`. */
  function Norm(gpu: Option<string>): string {
    if gpu.Some? then Lower(Strip(gpu.value)) else ""
  }

  lemma {:induction false} StripEnds(s: string)
    ensures var r := Strip(s); r != [] ==> !IsBlank(r[0]) && !IsBlank(r[|r| - 1])
  {
    if s != [] && IsBlank(s[0]) {
      StripEnds(s[1..]);
    } else if s != [] && IsBlank(s[|s| - 1]) {
      StripEnds(s[..|s| - 1]);
    }
  }

  /** Normalising a second time, as the matcher and the GPU test both do,
      changes nothing. */
  lemma NormTwice(gpu: Option<string>)
    ensures Norm(Some(Norm(gpu))) == Norm(gpu)
  {
    if gpu.Some? {
      var r := Strip(gpu.value);
      StripEnds(gpu.value);
      assert Strip(Lower(r)) == Lower(r);
      assert Lower(Lower(r)) == Lower(r);
    }
  }

  /** What stands between blanks is what is left. */
  lemma {:induction false} StripIs(pre: string, core: string, post: string)
    requires All(pre, IsBlank) && All(post, IsBlank)
    requires core != [] ==> !IsBlank(core[0]) && !IsBlank(core[|core| - 1])
    ensures Strip(pre + core + post) == core
    decreases |pre| + |post|
  {
    var s := pre + core + post;
    if pre != [] {
      assert IsBlank(pre[0]) && s[1..] == pre[1..] + core + post;
      StripIs(pre[1..], core, post);
    } else if post != [] {
      assert IsBlank(post[|post| - 1]) && s[..|s| - 1] == pre + core + post[..|post| - 1];
      if IsBlank(s[0]) {
        assert core == [] && s[1..] == [] + core + post[1..];
        StripIs([], core, post[1..]);
      } else {
        StripIs(pre, core, post[..|post| - 1]);
      }
    } else {
      assert s == core;
    }
  }

  /** A name is compared without the blanks around it and in lower case. */
  lemma NormIs(pre: string, core: string, post: string)
    requires All(pre, IsBlank) && All(post, IsBlank)
    requires core != [] ==> !IsBlank(core[0]) && !IsBlank(core[|core| - 1])
    ensures |Norm(Some(pre + core + post))| == |core|
    ensures forall k :: 0 <= k < |core| ==>
      Norm(Some(pre + core + post))[k] == if 'A' <= core[k] <= 'Z' then (core[k] as int - 'A' as int + 'a' as int) as char else core[k]
  {
    StripIs(pre, core, post);
  }

  predicate NoGpu(name: string) {
    name in {"none", "no", "cpu", ""}
  }

  /** A node offering `provided` can run what requires `required`. */
  predicate GpuSatisfies(required: Option<string>, provided: Option<string>) {
    var need, has := Norm(required), Norm(provided);
    if NoGpu(need) then true
    else if NoGpu(has) then false
    else need == has || has <= need || need <= has
  }

  /** The matcher passes the normalised requirement on; that makes no
      difference, and a node is enough for a requirement of none. */
  lemma NormalisedNeed(required: Option<string>, provided: Option<string>)
    ensures GpuSatisfies(Some(Norm(required)), provided) == GpuSatisfies(required, provided)
    ensures NoGpu(Norm(required)) ==> GpuSatisfies(required, provided)
  {
    hide Norm;
    NormTwice(required);
  }

  /** Which node is enough for which requirement: anything for none; and of two
      real GPUs, which each other's name continues. */
  lemma GpuSatisfiedExactly(required: Option<string>, provided: Option<string>)
    ensures GpuSatisfies(required, provided) <==>
      var need, has := Norm(required), Norm(provided);
      need in {"none", "no", "cpu", ""}
      || (has !in {"none", "no", "cpu", ""} && exists more :: has == need + more || need == has + more)
  {
    hide Norm;
    var need, has := Norm(required), Norm(provided);
    if need <= has {
      assert has == need + has[|need|..];
    }
    if has <= need {
      assert need == has + need[|has|..];
    }
  }

  /** Among real GPUs it does not matter which is required and which is there. */
  lemma GpusAreSymmetric(a: Option<string>, b: Option<string>)
    requires Norm(a) !in {"none", "no", "cpu", ""} && Norm(b) !in {"none", "no", "cpu", ""}
    ensures GpuSatisfies(a, b) == GpuSatisfies(b, a)
  {
    hide Norm;
  }

  /** A general name and a special one go together either way; two other names do not. */
  lemma GpuExamples()
    ensures GpuSatisfies(Some("cuda"), Some(" CUDA-12")) && GpuSatisfies(Some("cuda-12"), Some("cuda"))
    ensures !GpuSatisfies(Some("cuda"), Some("mps")) && !GpuSatisfies(Some("cuda"), Some("CPU "))
    ensures !GpuSatisfies(Some("cuda"), None) && GpuSatisfies(Some("None"), Some("cuda")) && GpuSatisfies(None, None)
  {
    hide Norm;
    NormText("", "cuda", "", "cuda");
    NormText(" ", "CUDA-12", "", "cuda-12");
    NormText("", "cuda-12", "", "cuda-12");
    NormText("", "mps", "", "mps");
    NormText("", "CPU", " ", "cpu");
    NormText("", "None", "", "none");
    NormNone();
    assert " " + "CUDA-12" + "" == " CUDA-12" && "" + "CPU" + " " == "CPU ";
    assert "cuda" <= "cuda-12";
    assert "cuda"[0] != "mps"[0];
  }

  lemma NormNone()
    ensures Norm(None) == ""
  {
  }

  lemma NormText(pre: string, core: string, post: string, name: string)
    requires All(pre, IsBlank) && All(post, IsBlank)
    requires core != [] ==> !IsBlank(core[0]) && !IsBlank(core[|core| - 1])
    requires |name| == |core| && forall k :: 0 <= k < |core| ==> name[k] == LowerChar(core[k])
    ensures Norm(Some(pre + core + post)) == name
    ensures pre == "" && post == "" ==> Norm(Some(core)) == name
  {
    StripIs(pre, core, post);
    if pre == "" && post == "" {
      assert pre + core + post == core;
    }
  }

  // ---------------------------------------------------------------------
  // Requirements, nodes and the rules of a match
  // ---------------------------------------------------------------------

  /** A declared runtime; `None` means the field is absent or unreadable. */
  datatype Runtime = Runtime(cpu: Option<int>, memory: Option<real>, gpu: Option<string>)

  datatype Node = Node(url: string, cpu: Option<int>, memory: Option<real>, gpu: Option<string>)

  datatype Dimension = Cpu | Memory | Gpu

  /** The requirement in one dimension is declared, and the node does not meet it. */
  predicate Unmet(need: Runtime, node: Node, strict: bool, d: Dimension) {
    match d
    case Cpu => need.cpu.Some? && (if node.cpu.Some? then need.cpu.value > node.cpu.value else strict)
    case Memory => need.memory.Some? && (if node.memory.Some? then need.memory.value > node.memory.value else strict)
    case Gpu => !GpuSatisfies(need.gpu, node.gpu)
  }

  /** The node meets every declared requirement. */
  predicate Meets(need: Runtime, node: Node, strict: bool) {
    forall d: Dimension :: !Unmet(need, node, strict, d)
  }

  /** The node has enough of what is needed, as far as either tells; in strict mode
      it must tell its cpu count and memory where they are needed. */
  predicate Suits(need: Runtime, node: Node, strict: bool) {
    && (need.cpu.None? || (if node.cpu.None? then !strict else need.cpu.value <= node.cpu.value))
    && (need.memory.None? || (if node.memory.None? then !strict else need.memory.value <= node.memory.value))
    && GpuSatisfies(need.gpu, node.gpu)
  }

  lemma MeetsExactly(need: Runtime, node: Node, strict: bool)
    ensures Meets(need, node, strict) <==> Suits(need, node, strict)
  {
    hide GpuSatisfies;
    MeetsAll(need, node, strict);
  }

  /** The index of the first node that meets the requirements, or the number
      of nodes. */
  function FirstMeeting(need: Runtime, nodes: seq<Node>, strict: bool): (k: nat)
    ensures k <= |nodes|
    ensures k < |nodes| ==> Meets(need, nodes[k], strict)
    ensures forall j :: 0 <= j < k ==> !Meets(need, nodes[j], strict)
  {
    if nodes == [] then 0
    else if Meets(need, nodes[0], strict) then 0
    else
      var k := FirstMeeting(need, nodes[1..], strict);
      assert forall j :: 1 <= j < |nodes| ==> nodes[j] == nodes[1..][j - 1];
      k + 1
  }

  // ---------------------------------------------------------------------
  // The matcher
  // ---------------------------------------------------------------------

  /** One line of the explanation of a node. */
  datatype Finding =
    | Unknown(d: Dimension)
    | Short(d: Dimension)
    | GpuMissing(need: string, has: string)
    | GpuProvided(need: string, has: string)
    | GpuNotNeeded(has: string)

  datatype Reason =
    | Undeclared
    | Selected(findings: seq<Finding>, url: string)
    | Rejected(url: string, shown: seq<Finding>)
    | NoneFits

  datatype Match = Match(matched: bool, node: Option<string>)

  /** A rejected node's line leaves out every finding whose text has the word
      "unknown" in it; names of GPUs are part of that text. */
  predicate SaysUnknown(f: Finding) {
    match f
    case Unknown(_) => true
    case Short(_) => false
    case GpuMissing(need, has) => Contains(need, "unknown") || Contains(has, "unknown")
    case GpuProvided(need, has) => Contains(need, "unknown") || Contains(has, "unknown")
    case GpuNotNeeded(has) => Contains(has, "unknown")
  }

  function Shown(fs: seq<Finding>): (r: seq<Finding>)
    ensures forall f :: f in r <==> f in fs && !SaysUnknown(f)
  {
    if fs == [] then []
    else
      assert fs == [fs[0]] + fs[1..];
      (if SaysUnknown(fs[0]) then [] else [fs[0]]) + Shown(fs[1..])
  }

  function GpuLabel(gpu: Option<string>): string {
    if gpu.Some? && gpu.value != "" then gpu.value else "none"
  }

  function CpuFindings(need: Runtime, node: Node): seq<Finding> {
    if need.cpu.None? then []
    else if node.cpu.None? then [Unknown(Cpu)]
    else if need.cpu.value > node.cpu.value then [Short(Cpu)] else []
  }

  function MemoryFindings(need: Runtime, node: Node): seq<Finding> {
    if need.memory.None? then []
    else if node.memory.None? then [Unknown(Memory)]
    else if need.memory.value > node.memory.value then [Short(Memory)] else []
  }

  function GpuFinding(need: Runtime, node: Node): Finding {
    var g := Norm(need.gpu);
    if NoGpu(g) then GpuNotNeeded(GpuLabel(node.gpu))
    else if GpuSatisfies(need.gpu, node.gpu) then GpuProvided(g, GpuLabel(node.gpu))
    else GpuMissing(g, GpuLabel(node.gpu))
  }

  /** Everything there is to say about a node. */
  function FindingsOf(need: Runtime, node: Node): seq<Finding> {
    CpuFindings(need, node) + MemoryFindings(need, node) + [GpuFinding(need, node)]
  }

  /** The body of the loop over the nodes: the verdict on one node. */
  method Judge(need: Runtime, node: Node, strict: bool) returns (ok: bool, findings: seq<Finding>)
    ensures ok <==> Meets(need, node, strict)
    ensures findings == FindingsOf(need, node)
  {
    hide Norm, GpuSatisfies, Meets;
    var gpu := Norm(need.gpu);
    ok, findings := true, [];
    if need.cpu.Some? {
      if node.cpu.None? {
        findings := findings + [Unknown(Cpu)];
        if strict {
          ok := false;
        }
      } else if need.cpu.value > node.cpu.value {
        findings := findings + [Short(Cpu)];
        ok := false;
      }
    }
    assert findings == CpuFindings(need, node) && (ok <==> !Unmet(need, node, strict, Cpu));
    if need.memory.Some? {
      if node.memory.None? {
        findings := findings + [Unknown(Memory)];
        if strict {
          ok := false;
        }
      } else if need.memory.value > node.memory.value {
        findings := findings + [Short(Memory)];
        ok := false;
      }
    }
    assert findings == CpuFindings(need, node) + MemoryFindings(need, node);
    var fits := GpuSatisfies(Some(gpu), node.gpu);
    NormalisedNeed(need.gpu, node.gpu);
    if gpu != "" && !NoGpu(gpu) {
      if !fits {
        findings := findings + [GpuMissing(gpu, GpuLabel(node.gpu))];
        ok := false;
      } else {
        findings := findings + [GpuProvided(gpu, GpuLabel(node.gpu))];
      }
    } else {
      findings := findings + [GpuNotNeeded(GpuLabel(node.gpu))];
    }
    MeetsAll(need, node, strict);
  }

  lemma MeetsAll(need: Runtime, node: Node, strict: bool)
    ensures Meets(need, node, strict) <==>
      !Unmet(need, node, strict, Cpu) && !Unmet(need, node, strict, Memory) && !Unmet(need, node, strict, Gpu)
  {
    hide Unmet;
    forall d: Dimension | Unmet(need, node, strict, d)
      ensures Unmet(need, node, strict, Cpu) || Unmet(need, node, strict, Memory) || Unmet(need, node, strict, Gpu)
    {
      match d
      case Cpu =>
      case Memory =>
      case Gpu =>
    }
  }

  /** The first node that meets every declared requirement is selected; with
      no declared runtime, the first node. The reasons say so line by line. */
  method MatchResource(runtime: Option<Runtime>, nodes: seq<Node>, strict: bool)
    returns (r: Match, reasons: seq<Reason>)
    ensures runtime.None? ==> r == Match(nodes != [], if nodes != [] then Some(nodes[0].url) else None)
    ensures runtime.None? ==> reasons == [Undeclared]
    ensures runtime.Some? ==> (r.matched <==> exists j :: 0 <= j < |nodes| && Suits(runtime.value, nodes[j], strict))
    ensures runtime.Some? && r.matched ==>
      exists j :: 0 <= j < |nodes| && Suits(runtime.value, nodes[j], strict) && r.node == Some(nodes[j].url)
        && forall m :: 0 <= m < j ==> !Suits(runtime.value, nodes[m], strict)
    ensures runtime.Some? ==>
      var k := FirstMeeting(runtime.value, nodes, strict);
      && |reasons| == k + 1
      && (forall j :: 0 <= j < k ==>
            reasons[j] == Rejected(nodes[j].url, Shown(FindingsOf(runtime.value, nodes[j]))))
      && if k < |nodes| then
           r == Match(true, Some(nodes[k].url))
           && reasons[k] == Selected(FindingsOf(runtime.value, nodes[k]), nodes[k].url)
         else
           r == Match(false, None) && reasons[k] == NoneFits
  {
    hide Meets, FirstMeeting, FindingsOf, Shown, Suits;
    reasons := [];
    if runtime.None? {
      var url := if nodes != [] then Some(nodes[0].url) else None;
      return Match(url.Some?, url), [Undeclared];
    }
    var need := runtime.value;
    forall j | 0 <= j < |nodes| ensures Meets(need, nodes[j], strict) <==> Suits(need, nodes[j], strict) {
      MeetsExactly(need, nodes[j], strict);
    }
    var i := 0;
    while i < |nodes|
      invariant 0 <= i <= |nodes| && |reasons| == i
      invariant forall j :: 0 <= j < i ==> !Meets(need, nodes[j], strict)
      invariant forall j :: 0 <= j < i ==> reasons[j] == Rejected(nodes[j].url, Shown(FindingsOf(need, nodes[j])))
    {
      var ok, findings := Judge(need, nodes[i], strict);
      if ok {
        return Match(true, Some(nodes[i].url)), reasons + [Selected(findings, nodes[i].url)];
      }
      reasons := reasons + [Rejected(nodes[i].url, Shown(findings))];
      i := i + 1;
    }
    return Match(false, None), reasons + [NoneFits];
  }

  // ---------------------------------------------------------------------
  // What the rules promise
  // ---------------------------------------------------------------------

  /** A strict match is also a lenient one, and the lenient matcher finds it
      or an earlier node. */
  lemma StrictThenLenient(need: Runtime, nodes: seq<Node>)
    ensures FirstMeeting(need, nodes, false) <= FirstMeeting(need, nodes, true)
  {
    var k := FirstMeeting(need, nodes, true);
    if k < |nodes| {
      assert forall d: Dimension :: Unmet(need, nodes[k], false, d) ==> Unmet(need, nodes[k], true, d);
    }
  }

  /** `more` is `node` with its known capacities possibly raised. */
  predicate Raised(node: Node, more: Node) {
    && more.url == node.url && more.gpu == node.gpu
    && (match node.cpu
        case None => more.cpu.None?
        case Some(c) => more.cpu.Some? && c <= more.cpu.value)
    && (match node.memory
        case None => more.memory.None?
        case Some(m) => more.memory.Some? && m <= more.memory.value)
  }

  /** Raising known capacities, of any nodes at once, never loses a match and
      never moves it to a later node. */
  lemma RaisingKeepsMatch(need: Runtime, nodes: seq<Node>, more: seq<Node>, strict: bool)
    requires |more| == |nodes| && forall i :: 0 <= i < |nodes| ==> Raised(nodes[i], more[i])
    ensures FirstMeeting(need, more, strict) <= FirstMeeting(need, nodes, strict)
  {
    var k := FirstMeeting(need, nodes, strict);
    if k < |nodes| {
      assert Raised(nodes[k], more[k]);
      assert forall d: Dimension :: Unmet(need, more[k], strict, d) ==> Unmet(need, nodes[k], strict, d);
    }
  }

  /** Learning an unknown cpu count is different: the lenient rule assumed
      enough, so a node is lost exactly when the count turns out too small. */
  lemma LearningMayLose(need: Runtime, node: Node, cores: int)
    requires node.cpu.None? && Meets(need, node, false)
    ensures Meets(need, node.(cpu := Some(cores)), false) <==> need.cpu.None? || need.cpu.value <= cores
  {
    var known := node.(cpu := Some(cores));
    assert forall d: Dimension :: d != Cpu ==> Unmet(need, known, false, d) == Unmet(need, node, false, d);
    assert Unmet(need, known, false, Cpu) <==> !(need.cpu.None? || need.cpu.value <= cores);
  }

  /** The dimension a finding reports as not met. */
  predicate Blames(f: Finding, d: Dimension) {
    match f
    case Unknown(x) => x == d
    case Short(x) => x == d
    case GpuMissing(_, _) => d == Gpu
    case _ => false
  }

  /** The shown lines blame dimension `d`. */
  ghost predicate Named(need: Runtime, node: Node, d: Dimension) {
    exists f :: f in Shown(FindingsOf(need, node)) && Blames(f, d)
  }

  /** The explanation of a rejected node is complete: each unmet requirement
      has a line. */
  ghost predicate Explained(need: Runtime, node: Node, strict: bool) {
    forall d: Dimension :: Unmet(need, node, strict, d) ==> Named(need, node, d)
  }

  /** The word test hides a line exactly for a requirement that only strict
      mode rejects, or a GPU whose name holds the word: the promise that a
      failure lists every unsatisfied requirement holds precisely without
      those. */
  lemma ExplainedExactly(need: Runtime, node: Node, strict: bool)
    ensures Explained(need, node, strict) <==>
      && !(strict && need.cpu.Some? && node.cpu.None?)
      && !(strict && need.memory.Some? && node.memory.None?)
      && (!GpuSatisfies(need.gpu, node.gpu) ==>
            !Contains(Norm(need.gpu), "unknown") && !Contains(GpuLabel(node.gpu), "unknown"))
  {
    hide Named, GpuSatisfies, Contains, Norm, GpuLabel, FindingsOf;
    CpuNamed(need, node);
    MemoryNamed(need, node);
    GpuNamed(need, node);
    assert Explained(need, node, strict) <==>
      (Unmet(need, node, strict, Cpu) ==> Named(need, node, Cpu))
      && (Unmet(need, node, strict, Memory) ==> Named(need, node, Memory))
      && (Unmet(need, node, strict, Gpu) ==> Named(need, node, Gpu)) by {
      hide Unmet;
    }
  }

  lemma CpuNamed(need: Runtime, node: Node)
    ensures Named(need, node, Cpu) <==> need.cpu.Some? && node.cpu.Some? && need.cpu.value > node.cpu.value
  {
    hide Shown, GpuSatisfies, Contains, Norm, GpuLabel;
    if need.cpu.Some? && node.cpu.Some? && need.cpu.value > node.cpu.value {
      assert Short(Cpu) in CpuFindings(need, node);
      assert Short(Cpu) in Shown(FindingsOf(need, node)) && Blames(Short(Cpu), Cpu);
    }
  }

  lemma MemoryNamed(need: Runtime, node: Node)
    ensures Named(need, node, Memory) <==>
      need.memory.Some? && node.memory.Some? && need.memory.value > node.memory.value
  {
    hide Shown, GpuSatisfies, Contains, Norm, GpuLabel;
    if need.memory.Some? && node.memory.Some? && need.memory.value > node.memory.value {
      assert Short(Memory) in MemoryFindings(need, node);
      assert Short(Memory) in Shown(FindingsOf(need, node)) && Blames(Short(Memory), Memory);
    }
  }

  lemma GpuNamed(need: Runtime, node: Node)
    ensures Named(need, node, Gpu) <==>
      && !GpuSatisfies(need.gpu, node.gpu)
      && !Contains(Norm(need.gpu), "unknown") && !Contains(GpuLabel(node.gpu), "unknown")
  {
    hide Shown, Contains, Norm, GpuLabel;
    var f := GpuFinding(need, node);
    assert f in FindingsOf(need, node);
    if f.GpuMissing? && !SaysUnknown(f) {
      assert f in Shown(FindingsOf(need, node)) && Blames(f, Gpu);
    }
  }

  /** A node that does not tell its cpu count fails a strict match of two cores,
      and no line of its explanation says so. */
  lemma UnknownCpuHidden(url: string)
    ensures
      var need, node := Runtime(Some(2), None, None), Node(url, None, None, None);
      && !Meets(need, node, true) && Unmet(need, node, true, Cpu) && !Explained(need, node, true)
  {
    var need, node := Runtime(Some(2), None, None), Node(url, None, None, None);
    hide Explained, GpuSatisfies;
    ExplainedExactly(need, node, true);
    assert Unmet(need, node, true, Cpu);
  }
}
