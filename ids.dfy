/**
 * The colon-joined test-node identifiers, and the command line synthesised for a
 * leaf from the fields of its identifier (src/extension.ts:70-103).
 */
module Ids {
  import opened Base
  import opened Text

  /** The six kinds of test node, with the fields their identifiers carry. */
  datatype TestId =
    | Simulation(target: string)
    | Params(value: string, target: string)
    | TestCaseGenerator(target: string, testcase: string)
    | ParamsTestCaseGenerator(target: string, param: string, testcase: string)
    | TestBench(target: string, testcase: string)
    | ParamsTestBench(target: string, param: string, testcase: string)

  /** The tag followed by the identifier's fields, in the order its template writes them. */
  function Fields(x: TestId): seq<string> {
    match x
    case Simulation(t) => ["simulation", t]
    case Params(v, t) => ["params", v, t]
    case TestCaseGenerator(t, c) => ["testCaseGenerator", t, c]
    case ParamsTestCaseGenerator(t, p, c) => ["paramsTestCaseGenerator", t, p, c]
    case TestBench(t, c) => ["testBench", t, c]
    case ParamsTestBench(t, p, c) => ["paramsTestBench", t, p, c]
  }

  predicate ColonFree(x: TestId) {
    forall i :: 0 <= i < |Fields(x)| ==> ':' !in Fields(x)[i]
  }

  /** An identifier is its tag and fields joined by colons. */
  function Serialize(x: TestId): string {
    Join(Fields(x), ":")
  }

  /**
   * The serialised forms are exactly the template strings the discovery code
   * writes (src/extension.ts:191, 198, 211, 215, 237, 244).
   */
  lemma SimulationTemplate(t: string)
    ensures Serialize(Simulation(t)) == "simulation:" + t
  {
    Join2("simulation", t, ":");
  }

  lemma ParamsTemplate(v: string, t: string)
    ensures Serialize(Params(v, t)) == "params:" + v + ":" + t
  {
    Join3("params", v, t, ":");
  }

  lemma TestCaseGeneratorTemplate(t: string, c: string)
    ensures Serialize(TestCaseGenerator(t, c)) == "testCaseGenerator:" + t + ":" + c
  {
    Join3("testCaseGenerator", t, c, ":");
  }

  lemma ParamsTestCaseGeneratorTemplate(t: string, p: string, c: string)
    ensures Serialize(ParamsTestCaseGenerator(t, p, c)) == "paramsTestCaseGenerator:" + t + ":" + p + ":" + c
  {
    Join4("paramsTestCaseGenerator", t, p, c, ":");
  }

  lemma TestBenchTemplate(t: string, c: string)
    ensures Serialize(TestBench(t, c)) == "testBench:" + t + ":" + c
  {
    Join3("testBench", t, c, ":");
  }

  lemma ParamsTestBenchTemplate(t: string, p: string, c: string)
    ensures Serialize(ParamsTestBench(t, p, c)) == "paramsTestBench:" + t + ":" + p + ":" + c
  {
    Join4("paramsTestBench", t, p, c, ":");
  }

  /** Parsing by `split(":")`: the tag picks the kind and the field count must fit it. */
  function Parse(id: string): (r: Option<TestId>)
    ensures r.Some? ==> Serialize(r.value) == id && ColonFree(r.value)
  {
    var fs := Split(id, ':');
    var x :=
      if fs[0] == "simulation" && |fs| == 2 then Some(Simulation(fs[1]))
      else if fs[0] == "params" && |fs| == 3 then Some(Params(fs[1], fs[2]))
      else if fs[0] == "testCaseGenerator" && |fs| == 3 then Some(TestCaseGenerator(fs[1], fs[2]))
      else if fs[0] == "paramsTestCaseGenerator" && |fs| == 4 then Some(ParamsTestCaseGenerator(fs[1], fs[2], fs[3]))
      else if fs[0] == "testBench" && |fs| == 3 then Some(TestBench(fs[1], fs[2]))
      else if fs[0] == "paramsTestBench" && |fs| == 4 then Some(ParamsTestBench(fs[1], fs[2], fs[3]))
      else None;
    assert x.Some? ==> Fields(x.value) == fs;
    x
  }

  lemma FieldsOfSerialize(x: TestId)
    requires ColonFree(x)
    ensures Split(Serialize(x), ':') == Fields(x)
  {
    SplitJoin(Fields(x), ':');
  }

  /** Identifiers whose fields hold no colon survive a serialise/parse round trip. */
  lemma ParseSerialize(x: TestId)
    requires ColonFree(x)
    ensures Parse(Serialize(x)) == Some(x)
  {
    FieldsOfSerialize(x);
  }

  /** `fields[k]` in JavaScript: an index past the end reads `undefined`, written out as "undefined". */
  function Field(fs: seq<string>, k: nat): string {
    if k < |fs| then fs[k] else "undefined"
  }

  /**
   * One `case` of a JavaScript `switch`: its label, the string it assigns to
   * `runtimeArgs` (from the identifier fields), and whether it ends in `break`.
   */
  datatype Case = Case(tag: string, assign: seq<string> -> string, breaks: bool)

  /** The switch at src/extension.ts:74-94; the `params` case has no `break`. */
  function RuntimeArgCases(): seq<Case> {
    [ Case("params", fs => "-params=" + Field(fs, 2), false),
      Case("testCaseGenerator", fs => "-testcases=" + Field(fs, 2), true),
      Case("paramsTestCaseGenerator", fs => "-params=" + Field(fs, 2) + " -testcases=" + Field(fs, 3), true),
      Case("testBench", fs => "+testcases=" + Field(fs, 2), true),
      Case("paramsTestBench", fs => "-params=" + Field(fs, 2) + " +testcases=" + Field(fs, 3), true) ]
  }

  /** Runs the case bodies from index `k` on, falling through until a `break` or the end. */
  function ExecFrom(cases: seq<Case>, k: nat, fs: seq<string>, acc: string): string
    decreases |cases| - k
  {
    if k >= |cases| then acc
    else
      var v := cases[k].assign(fs);
      if cases[k].breaks then v else ExecFrom(cases, k + 1, fs, v)
  }

  /** The first case whose label equals the discriminant, if any. */
  function MatchingCase(cases: seq<Case>, tag: string, k: nat): (r: Option<nat>)
    ensures r.Some? ==> k <= r.value < |cases| && cases[r.value].tag == tag
    ensures r.Some? ==> forall j :: k <= j < r.value ==> cases[j].tag != tag
    ensures r.None? ==> forall j :: k <= j < |cases| ==> cases[j].tag != tag
    decreases |cases| - k
  {
    if k >= |cases| then None
    else if cases[k].tag == tag then Some(k)
    else MatchingCase(cases, tag, k + 1)
  }

  /** A JavaScript `switch` with no `default`: an unmatched tag leaves `acc` as it was. */
  function Switch(cases: seq<Case>, tag: string, fs: seq<string>, acc: string): string {
    match MatchingCase(cases, tag, 0)
    case None => acc
    case Some(k) => ExecFrom(cases, k, fs, acc)
  }

  /** `runtimeArgs` after line 96: the verbosity flag, a space, and what the switch chose. */
  function RuntimeArgs(id: string, verbosity: string): string {
    var fs := Split(id, ':');
    "-verbosity=" + verbosity + " " + Switch(RuntimeArgCases(), fs[0], fs, "")
  }

  /** The `dbtArgs` built at src/extension.ts:39-40. */
  function DbtArgs(simulator: string): string {
    "hdl-simulator=" + simulator
  }

  /** The verb of src/extension.ts:99-103: `run` in a debug run, `test` otherwise. */
  function Verb(debug: bool): string {
    if debug then "run" else "test"
  }

  /** The command line for a leaf (src/extension.ts:98-103); the target is `fields[1]`. */
  function Command(debug: bool, id: string, simulator: string, verbosity: string): string {
    "dbt " + Verb(debug) + " " + Field(Split(id, ':'), 1) + " " + DbtArgs(simulator) + " : " + RuntimeArgs(id, verbosity)
  }

  /**
   * What each kind contributes to the runtime arguments, as the switch behaves:
   * a `params` identifier gets the `testCaseGenerator` template applied to its
   * own fields, so its third field (the target) becomes the test-case list.
   */
  function KindArgs(x: TestId): string {
    match x
    case Simulation(_) => ""
    case Params(_, t) => "-testcases=" + t
    case TestCaseGenerator(_, c) => "-testcases=" + c
    case ParamsTestCaseGenerator(_, p, c) => "-params=" + p + " -testcases=" + c
    case TestBench(_, c) => "+testcases=" + c
    case ParamsTestBench(_, p, c) => "-params=" + p + " +testcases=" + c
  }

  /** The target the command names: `fields[1]`, which for a `params` identifier is the parameter value. */
  function CommandTarget(x: TestId): string {
    match x
    case Params(v, _) => v
    case _ => x.target
  }

  /** The switch applied to identifier fields tagged with each label in turn. */
  lemma SwitchOnFields(fs: seq<string>)
    requires |fs| >= 1
    ensures fs[0] == "params" ==> Switch(RuntimeArgCases(), fs[0], fs, "") == "-testcases=" + Field(fs, 2)
    ensures fs[0] == "testCaseGenerator" ==> Switch(RuntimeArgCases(), fs[0], fs, "") == "-testcases=" + Field(fs, 2)
    ensures fs[0] == "paramsTestCaseGenerator" ==>
      Switch(RuntimeArgCases(), fs[0], fs, "") == "-params=" + Field(fs, 2) + " -testcases=" + Field(fs, 3)
    ensures fs[0] == "testBench" ==> Switch(RuntimeArgCases(), fs[0], fs, "") == "+testcases=" + Field(fs, 2)
    ensures fs[0] == "paramsTestBench" ==>
      Switch(RuntimeArgCases(), fs[0], fs, "") == "-params=" + Field(fs, 2) + " +testcases=" + Field(fs, 3)
    ensures fs[0] !in {"params", "testCaseGenerator", "paramsTestCaseGenerator", "testBench", "paramsTestBench"} ==>
      Switch(RuntimeArgCases(), fs[0], fs, "") == ""
  {
    var cs := RuntimeArgCases();
    var m := MatchingCase(cs, fs[0], 0);
    if fs[0] == "params" {
      assert m == Some(0);
      assert ExecFrom(cs, 0, fs, "") == ExecFrom(cs, 1, fs, "-params=" + Field(fs, 2));
    } else if fs[0] == "testCaseGenerator" {
      assert m == Some(1);
    } else if fs[0] == "paramsTestCaseGenerator" {
      assert m == Some(2);
    } else if fs[0] == "testBench" {
      assert m == Some(3);
    } else if fs[0] == "paramsTestBench" {
      assert m == Some(4);
    } else {
      assert m == None;
    }
  }

  /** Runtime arguments by kind, for every identifier the discovery code can build. */
  lemma RuntimeArgsOfKind(x: TestId, verbosity: string)
    requires ColonFree(x)
    ensures RuntimeArgs(Serialize(x), verbosity) == "-verbosity=" + verbosity + " " + KindArgs(x)
  {
    FieldsOfSerialize(x);
    SwitchOnFields(Fields(x));
  }

  lemma TargetField(x: TestId)
    ensures Field(Fields(x), 1) == CommandTarget(x)
  {
  }

  /** The whole command for a serialised identifier: verb, target, simulator and runtime arguments, nothing else. */
  lemma CommandOfKind(debug: bool, x: TestId, simulator: string, verbosity: string)
    requires ColonFree(x)
    ensures Command(debug, Serialize(x), simulator, verbosity) ==
      "dbt " + Verb(debug) + " " + CommandTarget(x) + " " + DbtArgs(simulator) +
      " : " + "-verbosity=" + verbosity + " " + KindArgs(x)
  {
    FieldsOfSerialize(x);
    RuntimeArgsOfKind(x, verbosity);
    TargetField(x);
  }

  /**
   * The missing `break`: a `params` leaf gets the same runtime arguments as a
   * `testCaseGenerator` identifier with the same fields, never a `-params=` flag,
   * and its command runs the parameter value as if it were the target.
   */
  lemma ParamsFallsThrough(v: string, t: string, debug: bool, simulator: string, verbosity: string)
    requires ':' !in v && ':' !in t
    ensures RuntimeArgs(Serialize(Params(v, t)), verbosity) ==
            RuntimeArgs(Serialize(TestCaseGenerator(v, t)), verbosity)
    ensures RuntimeArgs(Serialize(Params(v, t)), verbosity) == "-verbosity=" + verbosity + " " + "-testcases=" + t
    ensures Command(debug, Serialize(Params(v, t)), simulator, verbosity) ==
            Command(debug, Serialize(TestCaseGenerator(v, t)), simulator, verbosity)
    ensures Field(Split(Serialize(Params(v, t)), ':'), 1) == v
  {
    assert ColonFree(Params(v, t));
    assert ColonFree(TestCaseGenerator(v, t));
    RuntimeArgsOfKind(Params(v, t), verbosity);
    RuntimeArgsOfKind(TestCaseGenerator(v, t), verbosity);
    CommandOfKind(debug, Params(v, t), simulator, verbosity);
    CommandOfKind(debug, TestCaseGenerator(v, t), simulator, verbosity);
    FieldsOfSerialize(Params(v, t));
  }

  /** A tag that no case names leaves only the verbosity flag. */
  lemma UnknownTagArgs(id: string, verbosity: string)
    requires Split(id, ':')[0] !in {"params", "testCaseGenerator", "paramsTestCaseGenerator", "testBench", "paramsTestBench"}
    ensures RuntimeArgs(id, verbosity) == "-verbosity=" + verbosity + " "
  {
    SwitchOnFields(Split(id, ':'));
  }
}
