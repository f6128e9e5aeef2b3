/**
 * The tree-building body of `discoverTests` (src/extension.ts:134-259): one
 * simulation node per matching output line, with parameter, generator and bench
 * children. Each `forEach` block is a method whose loop is proved against a
 * function describing the children it produces.
 */
module Discovery {
  import opened Base
  import opened Text
  import opened Patterns
  import opened Process
  import opened Tree
  import Ids

  // ---------------------------------------------------------------------------
  // The items the loops create (src/extension.ts:191, 198, 211, 215, 237, 244)

  function SimulationNode(m: TargetMatch, setting: string, kids: seq<TestNode>): TestNode {
    TestNode("simulation:" + m.whole, m.name + "/" + setting, None, None, kids)
  }

  function ParamsNode(v: string, target: string): TestNode {
    TestNode("params:" + v + ":" + target, v, None, None, [])
  }

  function GeneratorNode(target: string, tc: string): TestNode {
    TestNode("testCaseGenerator:" + target + ":" + tc, tc, None, None, [])
  }

  function ParamsGeneratorNode(target: string, p: string, tc: string): TestNode {
    TestNode("paramsTestCaseGenerator:" + target + ":" + p + ":" + tc, tc, None, None, [])
  }

  /** A bench case: the bench file, the case name, and where its marker was found. */
  datatype BenchCase = BenchCase(uri: string, name: string, range: Option<Range>)

  function BenchNode(target: string, b: BenchCase): TestNode {
    TestNode("testBench:" + target + ":" + b.name, b.name, Some(b.uri), b.range, [])
  }

  function ParamsBenchNode(target: string, p: string, b: BenchCase): TestNode {
    TestNode("paramsTestBench:" + target + ":" + p + ":" + b.name, b.name + " (" + p + ")", Some(b.uri), b.range, [])
  }

  /** `child.children.add(...)` applied to one child. */
  function AddChild(t: TestNode, c: TestNode): TestNode {
    t.(children := t.children + [c])
  }

  // ---------------------------------------------------------------------------
  // What each block adds

  /** One `params` child per parameter value, in list order. */
  function WithParams(ps: seq<string>, target: string): (r: seq<TestNode>)
    ensures |r| == |ps|
  {
    seq(|ps|, i requires 0 <= i < |ps| => ParamsNode(ps[i], target))
  }

  /** The generator children for parameter `p` (or none), one per case, in list order. */
  function ParamsGenerators(target: string, p: string, tcs: seq<string>): (r: seq<TestNode>)
    ensures |r| == |tcs|
  {
    seq(|tcs|, k requires 0 <= k < |tcs| => ParamsGeneratorNode(target, p, tcs[k]))
  }

  function Generators(target: string, tcs: seq<string>): (r: seq<TestNode>)
    ensures |r| == |tcs|
    ensures forall k :: 0 <= k < |r| ==> r[k].children == []
  {
    seq(|tcs|, k requires 0 <= k < |tcs| => GeneratorNode(target, tcs[k]))
  }

  /** The generator cases: under every existing child when there are parameters, else appended. */
  function WithGenerators(kids: seq<TestNode>, target: string, gotParams: bool, tcs: seq<string>): seq<TestNode> {
    if gotParams then
      seq(|kids|, j requires 0 <= j < |kids| =>
        kids[j].(children := kids[j].children + ParamsGenerators(target, kids[j].title, tcs)))
    else kids + Generators(target, tcs)
  }

  /** The bench case for `name` in a document, with the range of its first marker. */
  function MakeBenchCase(uri: string, text: string, name: string): BenchCase {
    BenchCase(uri, name, FindTestCase(text, name))
  }

  function ParamsBenches(target: string, p: string, uri: string, text: string, cases: seq<string>): (r: seq<TestNode>)
    ensures |r| == |cases|
  {
    seq(|cases|, k requires 0 <= k < |cases| => ParamsBenchNode(target, p, MakeBenchCase(uri, text, cases[k])))
  }

  function Benches(target: string, uri: string, text: string, cases: seq<string>): (r: seq<TestNode>)
    ensures |r| == |cases|
    ensures forall k :: 0 <= k < |r| ==> r[k].children == []
  {
    seq(|cases|, k requires 0 <= k < |cases| => BenchNode(target, MakeBenchCase(uri, text, cases[k])))
  }

  /** The bench cases: under every existing child when there are parameters, else appended. */
  function WithBenches(kids: seq<TestNode>, target: string, gotParams: bool, uri: string, text: string, cases: seq<string>): seq<TestNode> {
    if gotParams then
      seq(|kids|, j requires 0 <= j < |kids| =>
        kids[j].(children := kids[j].children + ParamsBenches(target, kids[j].title, uri, text, cases)))
    else kids + Benches(target, uri, text, cases)
  }

  /**
   * The simulation node one output line yields, if its target pattern matches.
   * A bench file that cannot be opened adds no bench children at all.
   */
  function LineNode(line: string, setting: string, docs: map<string, string>): Option<TestNode> {
    match MatchTarget(line, setting)
    case None => None
    case Some(m) => Some(SimulationNode(m, setting, BenchStep(line, m.whole, docs, GeneratorStep(line, m.whole, ParamsStep(line, m.whole)))))
  }

  /** The children after the `-params=` block. */
  function ParamsStep(line: string, target: string): seq<TestNode> {
    match FindFlag(line, "-params=")
    case None => []
    case Some(v) => WithParams(Split(v, ','), target)
  }

  /** The children after the `-testcases=` block. */
  function GeneratorStep(line: string, target: string, kids: seq<TestNode>): seq<TestNode> {
    match FindFlag(line, "-testcases=")
    case None => kids
    case Some(v) => WithGenerators(kids, target, FindFlag(line, "-params=").Some?, Split(v, ','))
  }

  /** The children after the bench block, once the bench file has been read. */
  function BenchStep(line: string, target: string, docs: map<string, string>, kids: seq<TestNode>): seq<TestNode> {
    match FindBench(line)
    case None => kids
    case Some(bm) =>
      if bm.file in docs then WithBenches(kids, target, FindFlag(line, "-params=").Some?, bm.file, docs[bm.file], Split(bm.cases, ','))
      else kids
  }

  /** The items discovery adds for the given output lines, one per matching line, in line order. */
  function Discover(lines: seq<string>, setting: string, docs: map<string, string>): seq<TestNode>
    decreases |lines|
  {
    if lines == [] then []
    else
      Discover(lines[..|lines| - 1], setting, docs) + Items(LineNode(lines[|lines| - 1], setting, docs))
  }

  /** A node that may be absent, as a list of zero or one items. */
  function Items(n: Option<TestNode>): seq<TestNode> {
    if n.Some? then [n.value] else []
  }

  /** One more line adds its node, if it has one, to the collection. */
  lemma AddAllStep(existing: seq<TestNode>, lines: seq<string>, i: nat, setting: string, docs: map<string, string>,
                   before: seq<TestNode>, after: seq<TestNode>)
    requires i < |lines| && before == AddAll(existing, Discover(lines[..i], setting, docs))
    requires after == AddAll(before, Items(LineNode(lines[i], setting, docs)))
    ensures after == AddAll(existing, Discover(lines[..i + 1], setting, docs))
  {
    DiscoverStep(lines, i, setting, docs);
    var front := Discover(lines[..i], setting, docs);
    var sim := LineNode(lines[i], setting, docs);
    if sim.Some? {
      assert (front + [sim.value])[..|front|] == front;
    } else {
      assert front + [] == front;
    }
  }

  lemma DiscoverStep(lines: seq<string>, i: nat, setting: string, docs: map<string, string>)
    requires i < |lines|
    ensures Discover(lines[..i + 1], setting, docs) == Discover(lines[..i], setting, docs) + Items(LineNode(lines[i], setting, docs))
  {
    assert lines[..i + 1][..i] == lines[..i];
  }

  /** At most one item per line, and each item is the node of one of the lines. */
  lemma {:induction false} DiscoverItems(lines: seq<string>, setting: string, docs: map<string, string>)
    ensures |Discover(lines, setting, docs)| <= |lines|
    ensures forall n :: n in Discover(lines, setting, docs) ==>
              exists i :: 0 <= i < |lines| && LineNode(lines[i], setting, docs) == Some(n)
    decreases |lines|
  {
    if lines != [] {
      var front := lines[..|lines| - 1];
      DiscoverItems(front, setting, docs);
      var last := LineNode(lines[|lines| - 1], setting, docs);
      assert Discover(lines, setting, docs) == Discover(front, setting, docs) + Items(last);
      forall n | n in Discover(lines, setting, docs)
        ensures exists i :: 0 <= i < |lines| && LineNode(lines[i], setting, docs) == Some(n)
      {
        if n in Discover(front, setting, docs) {
          var i :| 0 <= i < |front| && LineNode(front[i], setting, docs) == Some(n);
          assert lines[i] == front[i];
        } else {
          assert last == Some(n);
        }
      }
    }
  }

  // ---------------------------------------------------------------------------
  // The loops

  /** src/extension.ts:197-200. */
  method AddParams(ps: seq<string>, target: string) returns (kids: seq<TestNode>)
    ensures kids == WithParams(ps, target)
  {
    kids := [];
    var i := 0;
    while i < |ps|
      invariant 0 <= i <= |ps|
      invariant kids == WithParams(ps[..i], target)
    {
      kids := kids + [ParamsNode(ps[i], target)];
      i := i + 1;
    }
    assert ps[..i] == ps;
  }

  /** `simulation.children.forEach(child => child.children.add(make(child.label)))`. */
  method AddUnderEach(kids: seq<TestNode>, make: string -> TestNode) returns (r: seq<TestNode>)
    ensures |r| == |kids|
    ensures forall j :: 0 <= j < |kids| ==> r[j] == AddChild(kids[j], make(kids[j].title))
  {
    r := kids;
    var j := 0;
    while j < |r|
      invariant 0 <= j <= |r| == |kids|
      invariant forall jj :: 0 <= jj < j ==> r[jj] == AddChild(kids[jj], make(kids[jj].title))
      invariant forall jj :: j <= jj < |r| ==> r[jj] == kids[jj]
    {
      r := r[j := AddChild(r[j], make(r[j].title))];
      j := j + 1;
    }
  }

  /** src/extension.ts:207-217. */
  method AddGenerators(kids: seq<TestNode>, target: string, gotParams: bool, tcs: seq<string>) returns (r: seq<TestNode>)
    ensures r == WithGenerators(kids, target, gotParams, tcs)
  {
    r := kids;
    var a := 0;
    GeneratorsNone(kids, target, gotParams, tcs[..0]);
    while a < |tcs|
      invariant 0 <= a <= |tcs|
      invariant r == WithGenerators(kids, target, gotParams, tcs[..a])
    {
      var tc := tcs[a];
      ghost var before := r;
      if gotParams {
        r := AddUnderEach(r, p => ParamsGeneratorNode(target, p, tc));
        GeneratorsStep(kids, target, tcs, a, before, r);
      } else {
        r := r + [GeneratorNode(target, tc)];
        assert tcs[..a + 1] == tcs[..a] + [tc];
      }
      a := a + 1;
    }
    assert tcs[..a] == tcs;
  }

  lemma GeneratorsNone(kids: seq<TestNode>, target: string, gotParams: bool, tcs: seq<string>)
    requires tcs == []
    ensures WithGenerators(kids, target, gotParams, tcs) == kids
  {
    var w := WithGenerators(kids, target, gotParams, tcs);
    if gotParams {
      forall j | 0 <= j < |kids| ensures w[j] == kids[j] {
        assert kids[j].children + [] == kids[j].children;
      }
    } else {
      assert kids + [] == kids;
    }
  }

  lemma GeneratorsStep(kids: seq<TestNode>, target: string, tcs: seq<string>, a: nat, before: seq<TestNode>, after: seq<TestNode>)
    requires a < |tcs|
    requires before == WithGenerators(kids, target, true, tcs[..a])
    requires |after| == |before|
    requires forall j :: 0 <= j < |before| ==>
      after[j] == AddChild(before[j], ParamsGeneratorNode(target, before[j].title, tcs[a]))
    ensures after == WithGenerators(kids, target, true, tcs[..a + 1])
  {
    var w := WithGenerators(kids, target, true, tcs[..a + 1]);
    forall j | 0 <= j < |kids| ensures after[j] == w[j] {
      var p := kids[j].title;
      var n := ParamsGeneratorNode(target, p, tcs[a]);
      assert ParamsGenerators(target, p, tcs[..a + 1]) == ParamsGenerators(target, p, tcs[..a]) + [n];
      assert kids[j].children + ParamsGenerators(target, p, tcs[..a + 1])
          == (kids[j].children + ParamsGenerators(target, p, tcs[..a])) + [n];
    }
  }

  /** src/extension.ts:226-251, with the document text already read. */
  method AddBenches(kids: seq<TestNode>, target: string, gotParams: bool, uri: string, text: string, cases: seq<string>)
    returns (r: seq<TestNode>)
    ensures r == WithBenches(kids, target, gotParams, uri, text, cases)
  {
    r := kids;
    var a := 0;
    BenchesNone(kids, target, gotParams, uri, text, cases[..0]);
    while a < |cases|
      invariant 0 <= a <= |cases|
      invariant r == WithBenches(kids, target, gotParams, uri, text, cases[..a])
    {
      var b := BenchCase(uri, cases[a], FindTestCase(text, cases[a]));
      ghost var before := r;
      if gotParams {
        r := AddUnderEach(r, p => ParamsBenchNode(target, p, b));
        BenchesStep(kids, target, uri, text, cases, a, before, r);
      } else {
        r := r + [BenchNode(target, b)];
        assert cases[..a + 1] == cases[..a] + [cases[a]];
      }
      a := a + 1;
    }
    assert cases[..a] == cases;
  }

  lemma BenchesNone(kids: seq<TestNode>, target: string, gotParams: bool, uri: string, text: string, cases: seq<string>)
    requires cases == []
    ensures WithBenches(kids, target, gotParams, uri, text, cases) == kids
  {
    var w := WithBenches(kids, target, gotParams, uri, text, cases);
    if gotParams {
      forall j | 0 <= j < |kids| ensures w[j] == kids[j] {
        assert kids[j].children + [] == kids[j].children;
      }
    } else {
      assert kids + [] == kids;
    }
  }

  lemma BenchesStep(kids: seq<TestNode>, target: string, uri: string, text: string, cases: seq<string>, a: nat,
                    before: seq<TestNode>, after: seq<TestNode>)
    requires a < |cases|
    requires before == WithBenches(kids, target, true, uri, text, cases[..a])
    requires |after| == |before|
    requires forall j :: 0 <= j < |before| ==>
      after[j] == AddChild(before[j], ParamsBenchNode(target, before[j].title, MakeBenchCase(uri, text, cases[a])))
    ensures after == WithBenches(kids, target, true, uri, text, cases[..a + 1])
  {
    var w := WithBenches(kids, target, true, uri, text, cases[..a + 1]);
    forall j | 0 <= j < |kids| ensures after[j] == w[j] {
      var p := kids[j].title;
      var n := ParamsBenchNode(target, p, MakeBenchCase(uri, text, cases[a]));
      assert ParamsBenches(target, p, uri, text, cases[..a + 1]) == ParamsBenches(target, p, uri, text, cases[..a]) + [n];
      assert kids[j].children + ParamsBenches(target, p, uri, text, cases[..a + 1])
          == (kids[j].children + ParamsBenches(target, p, uri, text, cases[..a])) + [n];
    }
  }

  /** One line of output: its simulation, if it has one, is added to the items (src/extension.ts:186-255). */
  method AddLine(items: seq<TestNode>, line: string, setting: string, docs: map<string, string>) returns (r: seq<TestNode>)
    ensures r == AddAll(items, Items(LineNode(line, setting, docs)))
  {
    r := items;
    var sim := DiscoverLine(line, setting, docs);
    if sim.Some? {
      r := AddItem(items, sim.value);
      assert [sim.value][..0] == [];
    }
  }

  /** The body of `lines.forEach` (src/extension.ts:186-255) for one line. */
  method DiscoverLine(line: string, setting: string, docs: map<string, string>) returns (sim: Option<TestNode>)
    ensures sim == LineNode(line, setting, docs)
  {
    var m := MatchTarget(line, setting);
    if m.None? {
      return None;
    }
    var target := m.value.whole;
    var kids := ParamsBlock(line, target);
    kids := GeneratorBlock(line, target, kids);
    kids := BenchBlock(line, target, docs, kids);
    sim := Some(SimulationNode(m.value, setting, kids));
  }

  /** src/extension.ts:194-202. */
  method ParamsBlock(line: string, target: string) returns (kids: seq<TestNode>)
    ensures kids == ParamsStep(line, target)
  {
    kids := [];
    var params := FindFlag(line, "-params=");
    if params.Some? {
      kids := AddParams(Split(params.value, ','), target);
    }
  }

  /** src/extension.ts:204-218. */
  method GeneratorBlock(line: string, target: string, kids: seq<TestNode>) returns (r: seq<TestNode>)
    ensures r == GeneratorStep(line, target, kids)
  {
    r := kids;
    var gotParams := FindFlag(line, "-params=").Some?;
    var testcases := FindFlag(line, "-testcases=");
    if testcases.Some? {
      r := AddGenerators(kids, target, gotParams, Split(testcases.value, ','));
    }
  }

  /** src/extension.ts:220-252, with the documents that can be opened given as a map from file to text. */
  method BenchBlock(line: string, target: string, docs: map<string, string>, kids: seq<TestNode>) returns (r: seq<TestNode>)
    ensures r == BenchStep(line, target, docs, kids)
  {
    r := kids;
    var gotParams := FindFlag(line, "-params=").Some?;
    var bench := FindBench(line);
    if bench.Some? && bench.value.file in docs {
      var text := docs[bench.value.file];
      r := AddBenches(kids, target, gotParams, bench.value.file, text, Split(bench.value.cases, ','));
    }
  }

  /**
   * `lines.forEach(...)` over the build tool's output lines (src/extension.ts:186-256),
   * adding each simulation to the controller's items.
   */
  method DiscoverLines(existing: seq<TestNode>, lines: seq<string>, setting: string, docs: map<string, string>)
    returns (items: seq<TestNode>)
    ensures items == AddAll(existing, Discover(lines, setting, docs))
  {
    items := existing;
    var i := 0;
    while i < |lines|
      invariant 0 <= i <= |lines|
      invariant items == AddAll(existing, Discover(lines[..i], setting, docs))
    {
      ghost var before := items;
      items := AddLine(items, lines[i], setting, docs);
      AddAllStep(existing, lines, i, setting, docs, before, items);
      i := i + 1;
    }
    assert lines[..i] == lines;
  }

  /**
   * `discoverTests` once the build tool has settled: a rejected build leaves the
   * items as they were; otherwise the output is split into lines and each line
   * processed. Items from earlier discoveries are never removed.
   */
  method DiscoverTests(existing: seq<TestNode>, build: ExecResult, setting: string, docs: map<string, string>)
    returns (items: seq<TestNode>)
    ensures build.Rejected? ==> items == existing
    ensures build.Resolved? ==> items == AddAll(existing, Discover(SplitLines(build.stdout), setting, docs))
  {
    if build.Rejected? {
      return existing;
    }
    items := DiscoverLines(existing, SplitLines(build.stdout), setting, docs);
  }

  // ---------------------------------------------------------------------------
  // The shape of a discovered simulation

  /** The generator cases a line names, none when it has no `-testcases=` flag. */
  function TestCases(line: string): seq<string> {
    match FindFlag(line, "-testcases=")
    case None => []
    case Some(v) => Split(v, ',')
  }

  /** The bench file of a line, its text, and the bench cases that are added from it. */
  datatype BenchSource = BenchSource(uri: string, text: string, cases: seq<string>)

  /** No bench cases when the line names no bench, or its file cannot be opened. */
  function BenchOf(line: string, docs: map<string, string>): BenchSource {
    match FindBench(line)
    case None => BenchSource("", "", [])
    case Some(bm) => if bm.file in docs then BenchSource(bm.file, docs[bm.file], Split(bm.cases, ',')) else BenchSource(bm.file, "", [])
  }

  /** The child of a parameterised simulation for value `p`: its generator cases, then its bench cases. */
  function ParamsChild(target: string, p: string, tcs: seq<string>, b: BenchSource): TestNode {
    ParamsNode(p, target).(children := ParamsGenerators(target, p, tcs) + ParamsBenches(target, p, b.uri, b.text, b.cases))
  }

  function ParamsTree(target: string, ps: seq<string>, tcs: seq<string>, b: BenchSource): (r: seq<TestNode>)
    ensures |r| == |ps|
  {
    seq(|ps|, i requires 0 <= i < |ps| => ParamsChild(target, ps[i], tcs, b))
  }

  /**
   * The children of a simulation in closed form: parameter values each carrying
   * every case, or else the generator cases followed by the bench cases.
   */
  function SimulationChildren(target: string, params: Option<string>, tcs: seq<string>, b: BenchSource): seq<TestNode> {
    match params
    case Some(v) => ParamsTree(target, Split(v, ','), tcs, b)
    case None => Generators(target, tcs) + Benches(target, b.uri, b.text, b.cases)
  }

  lemma ComposeParams(target: string, ps: seq<string>, tcs: seq<string>, b: BenchSource)
    ensures WithBenches(WithGenerators(WithParams(ps, target), target, true, tcs), target, true, b.uri, b.text, b.cases)
         == ParamsTree(target, ps, tcs, b)
  {
    var k0 := WithParams(ps, target);
    var k1 := WithGenerators(k0, target, true, tcs);
    var k2 := WithBenches(k1, target, true, b.uri, b.text, b.cases);
    var w := ParamsTree(target, ps, tcs, b);
    forall i | 0 <= i < |ps| ensures k2[i] == w[i] {
      var g := ParamsGenerators(target, ps[i], tcs);
      assert k1[i].children == [] + g == g;
      assert k1[i].title == ps[i];
    }
  }

  lemma ComposeFlat(target: string, tcs: seq<string>, b: BenchSource)
    ensures WithBenches(WithGenerators([], target, false, tcs), target, false, b.uri, b.text, b.cases)
         == Generators(target, tcs) + Benches(target, b.uri, b.text, b.cases)
  {
    assert [] + Generators(target, tcs) == Generators(target, tcs);
  }

  /** The simulation a matching line yields, in closed form. */
  lemma LineNodeShape(line: string, setting: string, docs: map<string, string>)
    requires MatchTarget(line, setting).Some?
    ensures LineNode(line, setting, docs) ==
      Some(SimulationNode(MatchTarget(line, setting).value, setting,
                          SimulationChildren(MatchTarget(line, setting).value.whole, FindFlag(line, "-params="),
                                             TestCases(line), BenchOf(line, docs))))
  {
    StepsShape(line, MatchTarget(line, setting).value.whole, docs);
  }

  /** The three blocks of the discovery loop, applied in turn, give the closed-form children. */
  lemma StepsShape(line: string, target: string, docs: map<string, string>)
    ensures BenchStep(line, target, docs, GeneratorStep(line, target, ParamsStep(line, target)))
         == SimulationChildren(target, FindFlag(line, "-params="), TestCases(line), BenchOf(line, docs))
  {
    var gotParams := FindFlag(line, "-params=").Some?;
    var kids0 := ParamsStep(line, target);
    var tcs := TestCases(line);
    var b := BenchOf(line, docs);
    if FindFlag(line, "-testcases=").None? {
      GeneratorsNone(kids0, target, gotParams, tcs);
    }
    var kids1 := GeneratorStep(line, target, kids0);
    assert kids1 == WithGenerators(kids0, target, gotParams, tcs);
    if b.cases == [] {
      BenchesNone(kids1, target, gotParams, b.uri, b.text, b.cases);
    }
    assert BenchStep(line, target, docs, kids1) == WithBenches(kids1, target, gotParams, b.uri, b.text, b.cases);
    if gotParams {
      ComposeParams(target, Split(FindFlag(line, "-params=").value, ','), tcs, b);
    } else {
      ComposeFlat(target, tcs, b);
    }
  }

  // ---------------------------------------------------------------------------
  // The runnable leaves of a discovered simulation

  /** The leaves of a parameterised simulation: for each value in turn, its cases. */
  function ParamsLeaves(target: string, ps: seq<string>, tcs: seq<string>, b: BenchSource): seq<TestNode>
    decreases |ps|
  {
    if ps == [] then []
    else ParamsLeaves(target, ps[..|ps| - 1], tcs, b) + ParamsChild(target, ps[|ps| - 1], tcs, b).children
  }

  /** A generator case for some parameter value. */
  predicate GeneratorCross(target: string, ps: seq<string>, tcs: seq<string>, t: TestNode) {
    exists i, j :: 0 <= i < |ps| && 0 <= j < |tcs| && t == ParamsGeneratorNode(target, ps[i], tcs[j])
  }

  /** A bench case for some parameter value. */
  predicate BenchCross(target: string, ps: seq<string>, b: BenchSource, t: TestNode) {
    exists i, j :: 0 <= i < |ps| && 0 <= j < |b.cases| && t == ParamsBenchNode(target, ps[i], MakeBenchCase(b.uri, b.text, b.cases[j]))
  }

  /** An element of the cross product of parameter values and cases. */
  predicate IsCrossLeaf(target: string, ps: seq<string>, tcs: seq<string>, b: BenchSource, t: TestNode) {
    GeneratorCross(target, ps, tcs, t) || BenchCross(target, ps, b, t)
  }

  lemma GeneratorCrossSnoc(target: string, ps: seq<string>, tcs: seq<string>, t: TestNode)
    requires ps != []
    ensures GeneratorCross(target, ps, tcs, t) <==>
            GeneratorCross(target, ps[..|ps| - 1], tcs, t) || t in ParamsGenerators(target, ps[|ps| - 1], tcs)
  {
    var front := ps[..|ps| - 1];
    var gs := ParamsGenerators(target, ps[|ps| - 1], tcs);
    if GeneratorCross(target, ps, tcs, t) {
      var i, j :| 0 <= i < |ps| && 0 <= j < |tcs| && t == ParamsGeneratorNode(target, ps[i], tcs[j]);
      GeneratorCrossAt(target, ps, tcs, i, j);
    }
    if GeneratorCross(target, front, tcs, t) {
      var i, j :| 0 <= i < |front| && 0 <= j < |tcs| && t == ParamsGeneratorNode(target, front[i], tcs[j]);
      assert front[i] == ps[i];
    }
    if t in gs {
      var j :| 0 <= j < |tcs| && gs[j] == t;
      assert t == ParamsGeneratorNode(target, ps[|ps| - 1], tcs[j]);
    }
  }

  lemma GeneratorCrossAt(target: string, ps: seq<string>, tcs: seq<string>, i: nat, j: nat)
    requires i < |ps| && j < |tcs|
    ensures var t := ParamsGeneratorNode(target, ps[i], tcs[j]);
            GeneratorCross(target, ps[..|ps| - 1], tcs, t) || t in ParamsGenerators(target, ps[|ps| - 1], tcs)
  {
    var front := ps[..|ps| - 1];
    if i < |front| {
      assert ps[i] == front[i];
    } else {
      assert ParamsGenerators(target, ps[|ps| - 1], tcs)[j] == ParamsGeneratorNode(target, ps[i], tcs[j]);
    }
  }

  lemma BenchCrossSnoc(target: string, ps: seq<string>, b: BenchSource, t: TestNode)
    requires ps != []
    ensures BenchCross(target, ps, b, t) <==>
            BenchCross(target, ps[..|ps| - 1], b, t) || t in ParamsBenches(target, ps[|ps| - 1], b.uri, b.text, b.cases)
  {
    if BenchCross(target, ps, b, t) {
      BenchCrossSplit(target, ps, b, t);
    }
    if BenchCross(target, ps[..|ps| - 1], b, t) || t in ParamsBenches(target, ps[|ps| - 1], b.uri, b.text, b.cases) {
      BenchCrossJoin(target, ps, b, t);
    }
  }

  lemma BenchCrossSplit(target: string, ps: seq<string>, b: BenchSource, t: TestNode)
    requires ps != [] && BenchCross(target, ps, b, t)
    ensures BenchCross(target, ps[..|ps| - 1], b, t) || t in ParamsBenches(target, ps[|ps| - 1], b.uri, b.text, b.cases)
  {
    var i, j :| 0 <= i < |ps| && 0 <= j < |b.cases| && t == ParamsBenchNode(target, ps[i], MakeBenchCase(b.uri, b.text, b.cases[j]));
    BenchCrossAt(target, ps, b, i, j);
  }

  lemma BenchCrossAt(target: string, ps: seq<string>, b: BenchSource, i: nat, j: nat)
    requires i < |ps| && j < |b.cases|
    ensures var t := ParamsBenchNode(target, ps[i], MakeBenchCase(b.uri, b.text, b.cases[j]));
            BenchCross(target, ps[..|ps| - 1], b, t) || t in ParamsBenches(target, ps[|ps| - 1], b.uri, b.text, b.cases)
  {
    var front := ps[..|ps| - 1];
    var t := ParamsBenchNode(target, ps[i], MakeBenchCase(b.uri, b.text, b.cases[j]));
    if i < |front| {
      assert ps[i] == front[i];
    } else {
      var bs := ParamsBenches(target, ps[|ps| - 1], b.uri, b.text, b.cases);
      assert bs[j] == t;
    }
  }

  lemma BenchCrossJoin(target: string, ps: seq<string>, b: BenchSource, t: TestNode)
    requires ps != []
    requires BenchCross(target, ps[..|ps| - 1], b, t) || t in ParamsBenches(target, ps[|ps| - 1], b.uri, b.text, b.cases)
    ensures BenchCross(target, ps, b, t)
  {
    var front := ps[..|ps| - 1];
    var bs := ParamsBenches(target, ps[|ps| - 1], b.uri, b.text, b.cases);
    if BenchCross(target, front, b, t) {
      var i, j :| 0 <= i < |front| && 0 <= j < |b.cases| && t == ParamsBenchNode(target, front[i], MakeBenchCase(b.uri, b.text, b.cases[j]));
      assert front[i] == ps[i];
    } else {
      var j :| 0 <= j < |b.cases| && bs[j] == t;
      assert t == ParamsBenchNode(target, ps[|ps| - 1], MakeBenchCase(b.uri, b.text, b.cases[j]));
    }
  }

  lemma {:induction false} LeavesOfChildless(ts: seq<TestNode>)
    requires forall i :: 0 <= i < |ts| ==> ts[i].children == []
    ensures LeavesOf(ts, []) == ts
    decreases |ts|
  {
    if ts != [] {
      LeavesOfChildless(ts[..|ts| - 1]);
    }
  }

  lemma {:induction false} LeavesOfParamsTree(target: string, ps: seq<string>, tcs: seq<string>, b: BenchSource)
    requires |tcs| + |b.cases| > 0
    ensures LeavesOf(ParamsTree(target, ps, tcs, b), []) == ParamsLeaves(target, ps, tcs, b)
    decreases |ps|
  {
    if ps != [] {
      var tree := ParamsTree(target, ps, tcs, b);
      assert tree[..|ps| - 1] == ParamsTree(target, ps[..|ps| - 1], tcs, b);
      LeavesOfParamsTree(target, ps[..|ps| - 1], tcs, b);
      assert tree[|ps| - 1] == ParamsChild(target, ps[|ps| - 1], tcs, b);
      ParamsChildLeaves(target, ps[|ps| - 1], tcs, b);
    }
  }

  /** The child for one parameter value is not a leaf: its leaves are its cases. */
  lemma ParamsChildLeaves(target: string, p: string, tcs: seq<string>, b: BenchSource)
    requires |tcs| + |b.cases| > 0
    ensures Leaves(ParamsChild(target, p, tcs, b), []) == ParamsChild(target, p, tcs, b).children
  {
    var child := ParamsChild(target, p, tcs, b);
    LeavesOfChildless(child.children);
    assert child.children != [] by {
      assert |child.children| == |tcs| + |b.cases|;
    }
  }

  /** Every parameter value carries every case: |values| times |cases| leaves. */
  lemma {:induction false} ParamsLeavesCount(target: string, ps: seq<string>, tcs: seq<string>, b: BenchSource)
    ensures |ParamsLeaves(target, ps, tcs, b)| == |ps| * (|tcs| + |b.cases|)
    decreases |ps|
  {
    if ps != [] {
      ParamsLeavesCount(target, ps[..|ps| - 1], tcs, b);
      var k := |tcs| + |b.cases|;
      assert (|ps| - 1) * k + k == |ps| * k;
    }
  }

  /** The leaves are exactly the cross product of parameter values and cases. */
  lemma {:induction false} ParamsLeavesCross(target: string, ps: seq<string>, tcs: seq<string>, b: BenchSource, t: TestNode)
    ensures t in ParamsLeaves(target, ps, tcs, b) <==> IsCrossLeaf(target, ps, tcs, b, t)
    decreases |ps|
  {
    if ps != [] {
      var front := ps[..|ps| - 1];
      ParamsLeavesCross(target, front, tcs, b, t);
      GeneratorCrossSnoc(target, ps, tcs, t);
      BenchCrossSnoc(target, ps, b, t);
    }
  }

  /** The leaves of a parameterised simulation. */
  lemma ParamsShapeLeaves(n: TestNode, target: string, ps: seq<string>, tcs: seq<string>, b: BenchSource)
    requires ps != [] && n.children == ParamsTree(target, ps, tcs, b)
    ensures |tcs| + |b.cases| > 0 ==>
              Leaves(n, []) == ParamsLeaves(target, ps, tcs, b) && |Leaves(n, [])| == |ps| * (|tcs| + |b.cases|)
    ensures |tcs| + |b.cases| == 0 ==> Leaves(n, []) == WithParams(ps, target)
  {
    if |tcs| + |b.cases| > 0 {
      LeavesOfParamsTree(target, ps, tcs, b);
      ParamsLeavesCount(target, ps, tcs, b);
    } else {
      assert ParamsTree(target, ps, tcs, b) == WithParams(ps, target) by {
        forall i | 0 <= i < |ps| ensures ParamsChild(target, ps[i], tcs, b) == ParamsNode(ps[i], target) {
          assert ParamsGenerators(target, ps[i], tcs) + ParamsBenches(target, ps[i], b.uri, b.text, b.cases) == [];
        }
      }
      LeavesOfChildless(WithParams(ps, target));
    }
  }

  /** The leaves of a simulation without parameters. */
  lemma FlatShapeLeaves(n: TestNode, target: string, tcs: seq<string>, b: BenchSource)
    requires n.children == Generators(target, tcs) + Benches(target, b.uri, b.text, b.cases)
    ensures |tcs| + |b.cases| > 0 ==> Leaves(n, []) == n.children
    ensures |tcs| + |b.cases| == 0 ==> Leaves(n, []) == [n]
  {
    var flat := n.children;
    if |tcs| + |b.cases| > 0 {
      var gs, bs := Generators(target, tcs), Benches(target, b.uri, b.text, b.cases);
      forall i | 0 <= i < |flat| ensures flat[i].children == [] {
        if i < |gs| {
          assert flat[i] == gs[i];
        } else {
          assert flat[i] == bs[i - |gs|];
        }
      }
      LeavesOfChildless(flat);
    }
  }

  /** The leaves of a node whose children have the closed form of a simulation's. */
  lemma ShapeLeaves(n: TestNode, target: string, params: Option<string>, tcs: seq<string>, b: BenchSource)
    requires n.children == SimulationChildren(target, params, tcs, b)
    ensures var k := |tcs| + |b.cases|;
            match params
            case Some(v) =>
              (k > 0 ==> Leaves(n, []) == ParamsLeaves(target, Split(v, ','), tcs, b)
                         && |Leaves(n, [])| == |Split(v, ',')| * k) &&
              (k == 0 ==> Leaves(n, []) == WithParams(Split(v, ','), target))
            case None =>
              (k > 0 ==> Leaves(n, []) == Generators(target, tcs) + Benches(target, b.uri, b.text, b.cases)) &&
              (k == 0 ==> Leaves(n, []) == [n])
  {
    match params
    case Some(v) =>
      ParamsShapeLeaves(n, target, Split(v, ','), tcs, b);
    case None =>
      FlatShapeLeaves(n, target, tcs, b);
  }

  /**
   * The tests a run of a discovered simulation executes. With parameters: the
   * cross product, or the bare parameter nodes when the line names no cases.
   * Without: the cases, or the simulation itself.
   */
  lemma LineLeaves(line: string, setting: string, docs: map<string, string>)
    requires MatchTarget(line, setting).Some?
    ensures var n := LineNode(line, setting, docs).value;
            var target := MatchTarget(line, setting).value.whole;
            var tcs := TestCases(line);
            var b := BenchOf(line, docs);
            var k := |tcs| + |b.cases|;
            match FindFlag(line, "-params=")
            case Some(v) =>
              (k > 0 ==> Leaves(n, []) == ParamsLeaves(target, Split(v, ','), tcs, b)
                         && |Leaves(n, [])| == |Split(v, ',')| * k) &&
              (k == 0 ==> Leaves(n, []) == WithParams(Split(v, ','), target))
            case None =>
              (k > 0 ==> Leaves(n, []) == Generators(target, tcs) + Benches(target, b.uri, b.text, b.cases)) &&
              (k == 0 ==> Leaves(n, []) == [n])
  {
    LineNodeShape(line, setting, docs);
    ShapeLeaves(LineNode(line, setting, docs).value, MatchTarget(line, setting).value.whole,
                FindFlag(line, "-params="), TestCases(line), BenchOf(line, docs));
  }

  // ---------------------------------------------------------------------------
  // Identifiers and commands of discovered nodes

  /** Every node discovery builds carries the serialised identifier of its kind. */
  lemma NodeIds(m: TargetMatch, setting: string, kids: seq<TestNode>, target: string, p: string, tc: string, b: BenchCase)
    ensures SimulationNode(m, setting, kids).id == Ids.Serialize(Ids.Simulation(m.whole))
    ensures ParamsNode(p, target).id == Ids.Serialize(Ids.Params(p, target))
    ensures GeneratorNode(target, tc).id == Ids.Serialize(Ids.TestCaseGenerator(target, tc))
    ensures ParamsGeneratorNode(target, p, tc).id == Ids.Serialize(Ids.ParamsTestCaseGenerator(target, p, tc))
    ensures BenchNode(target, b).id == Ids.Serialize(Ids.TestBench(target, b.name))
    ensures ParamsBenchNode(target, p, b).id == Ids.Serialize(Ids.ParamsTestBench(target, p, b.name))
  {
    Ids.SimulationTemplate(m.whole);
    Ids.ParamsTemplate(p, target);
    Ids.TestCaseGeneratorTemplate(target, tc);
    Ids.ParamsTestCaseGeneratorTemplate(target, p, tc);
    Ids.TestBenchTemplate(target, b.name);
    Ids.ParamsTestBenchTemplate(target, p, b.name);
  }

  // Each kind of leaf, with colon-free parts: its identifier parses back to the
  // kind and fields it was built from, and the command a run builds for it names
  // the target and exactly the runtime arguments of its kind.

  /**
   * A bare `params` leaf: because of the missing `break`, its command names the
   * parameter value as the target and the target as the test cases.
   */
  lemma ParamsLeaf(debug: bool, simulator: string, verbosity: string, target: string, p: string)
    requires ':' !in target && ':' !in p
    ensures Ids.Parse(ParamsNode(p, target).id) == Some(Ids.Params(p, target))
    ensures Ids.Command(debug, ParamsNode(p, target).id, simulator, verbosity) ==
      "dbt " + Ids.Verb(debug) + " " + p + " " + Ids.DbtArgs(simulator) + " : " + "-verbosity=" + verbosity + " " +
      ("-testcases=" + target)
  {
    var x := Ids.Params(p, target);
    Ids.ParamsTemplate(p, target);
    assert Ids.ColonFree(x);
    Ids.ParseSerialize(x);
    Ids.CommandOfKind(debug, x, simulator, verbosity);
  }

  lemma GeneratorLeaf(debug: bool, simulator: string, verbosity: string, target: string, tc: string)
    requires ':' !in target && ':' !in tc
    ensures Ids.Parse(GeneratorNode(target, tc).id) == Some(Ids.TestCaseGenerator(target, tc))
    ensures Ids.Command(debug, GeneratorNode(target, tc).id, simulator, verbosity) ==
      "dbt " + Ids.Verb(debug) + " " + target + " " + Ids.DbtArgs(simulator) + " : " + "-verbosity=" + verbosity + " " +
      ("-testcases=" + tc)
  {
    var x := Ids.TestCaseGenerator(target, tc);
    Ids.TestCaseGeneratorTemplate(target, tc);
    assert Ids.ColonFree(x);
    Ids.ParseSerialize(x);
    Ids.CommandOfKind(debug, x, simulator, verbosity);
  }

  lemma ParamsGeneratorLeaf(debug: bool, simulator: string, verbosity: string, target: string, p: string, tc: string)
    requires ':' !in target && ':' !in p && ':' !in tc
    ensures Ids.Parse(ParamsGeneratorNode(target, p, tc).id) == Some(Ids.ParamsTestCaseGenerator(target, p, tc))
    ensures Ids.Command(debug, ParamsGeneratorNode(target, p, tc).id, simulator, verbosity) ==
      "dbt " + Ids.Verb(debug) + " " + target + " " + Ids.DbtArgs(simulator) + " : " + "-verbosity=" + verbosity + " " +
      ("-params=" + p + " -testcases=" + tc)
  {
    var x := Ids.ParamsTestCaseGenerator(target, p, tc);
    Ids.ParamsTestCaseGeneratorTemplate(target, p, tc);
    assert Ids.ColonFree(x);
    Ids.ParseSerialize(x);
    Ids.CommandOfKind(debug, x, simulator, verbosity);
  }

  lemma BenchLeaf(debug: bool, simulator: string, verbosity: string, target: string, b: BenchCase)
    requires ':' !in target && ':' !in b.name
    ensures Ids.Parse(BenchNode(target, b).id) == Some(Ids.TestBench(target, b.name))
    ensures Ids.Command(debug, BenchNode(target, b).id, simulator, verbosity) ==
      "dbt " + Ids.Verb(debug) + " " + target + " " + Ids.DbtArgs(simulator) + " : " + "-verbosity=" + verbosity + " " +
      ("+testcases=" + b.name)
  {
    var x := Ids.TestBench(target, b.name);
    Ids.TestBenchTemplate(target, b.name);
    assert Ids.ColonFree(x);
    Ids.ParseSerialize(x);
    Ids.CommandOfKind(debug, x, simulator, verbosity);
  }

  lemma ParamsBenchLeaf(debug: bool, simulator: string, verbosity: string, target: string, p: string, b: BenchCase)
    requires ':' !in target && ':' !in p && ':' !in b.name
    ensures Ids.Parse(ParamsBenchNode(target, p, b).id) == Some(Ids.ParamsTestBench(target, p, b.name))
    ensures Ids.Command(debug, ParamsBenchNode(target, p, b).id, simulator, verbosity) ==
      "dbt " + Ids.Verb(debug) + " " + target + " " + Ids.DbtArgs(simulator) + " : " + "-verbosity=" + verbosity + " " +
      ("-params=" + p + " +testcases=" + b.name)
  {
    var x := Ids.ParamsTestBench(target, p, b.name);
    Ids.ParamsTestBenchTemplate(target, p, b.name);
    assert Ids.ColonFree(x);
    Ids.ParseSerialize(x);
    Ids.CommandOfKind(debug, x, simulator, verbosity);
  }

  /** A simulation run on its own passes only the verbosity flag. */
  lemma SimulationLeaf(debug: bool, simulator: string, verbosity: string, m: TargetMatch, setting: string, kids: seq<TestNode>)
    requires ':' !in m.whole
    ensures Ids.Parse(SimulationNode(m, setting, kids).id) == Some(Ids.Simulation(m.whole))
    ensures Ids.Command(debug, SimulationNode(m, setting, kids).id, simulator, verbosity) ==
      "dbt " + Ids.Verb(debug) + " " + m.whole + " " + Ids.DbtArgs(simulator) + " : " + "-verbosity=" + verbosity + " " + ""
  {
    var x := Ids.Simulation(m.whole);
    Ids.SimulationTemplate(m.whole);
    assert Ids.ColonFree(x);
    Ids.ParseSerialize(x);
    Ids.CommandOfKind(debug, x, simulator, verbosity);
  }
}
