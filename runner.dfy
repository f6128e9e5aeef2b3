/**
 * `runHandler` (src/extension.ts:30-131): a depth-first walk over the requested
 * test items with an explicit stack, running every leaf as a `dbt` command,
 * reporting each outcome, and keeping the module-wide process registry
 * (src/extension.ts:6-18) in step.
 */
module Runner {
  import opened Base
  import opened Text
  import opened Patterns
  import opened Process
  import opened Tree
  import Ids

  /** A started child process: the command line and working directory it was started with. */
  datatype Handle = Handle(cmd: string, cwd: string)

  /**
   * The module-wide `processes` map from test identifier to running process, and
   * the handles `kill()` has been called on, in call order.
   */
  class ProcessRegistry {
    var processes: map<string, Handle>
    var killed: seq<Handle>

    constructor()
      ensures processes == map[] && killed == []
    {
      processes := map[];
      killed := [];
    }

    /** `processes.set(id, child)`: a later registration under the same identifier replaces the earlier one. */
    method Register(id: string, h: Handle)
      modifies this
      ensures processes == old(processes)[id := h]
      ensures killed == old(killed)
    {
      processes := processes[id := h];
    }

    /** `processes.delete(id)`. */
    method Deregister(id: string)
      modifies this
      ensures processes == old(processes) - {id}
      ensures killed == old(killed)
    {
      processes := processes - {id};
    }

    /** `processes.get(id)?.kill(); processes.delete(id)`. */
    method KillAndForget(id: string)
      modifies this
      ensures processes == old(processes) - {id}
      ensures killed == old(killed) + (if id in old(processes) then [old(processes)[id]] else [])
    {
      if id in processes {
        killed := killed + [processes[id]];
      }
      processes := processes - {id};
    }

    /**
     * `deactivate` (src/extension.ts:319-324): every registered process is killed
     * once, in the order of identifiers `order`, and the map itself is left as it was.
     */
    method KillAll() returns (ghost order: seq<string>)
      modifies this
      ensures processes == old(processes)
      ensures |killed| == |old(killed)| + |processes.Keys|
      ensures killed[..|old(killed)|] == old(killed)
      ensures forall id :: id in processes ==> processes[id] in killed[|old(killed)|..]
      ensures forall i :: |old(killed)| <= i < |killed| ==> killed[i] in processes.Values
      ensures |order| == |processes.Keys| && forall i, j :: 0 <= i < j < |order| ==> order[i] != order[j]
      ensures forall i :: 0 <= i < |order| ==> order[i] in processes && killed[|old(killed)| + i] == processes[order[i]]
    {
      var ps := processes;
      var rest := ps.Keys;
      var k := killed;
      order := [];
      while rest != {}
        invariant rest <= ps.Keys
        invariant |k| == |killed| + |order| && |order| + |rest| == |ps.Keys|
        invariant k[..|killed|] == killed
        invariant forall i :: 0 <= i < |order| ==> order[i] in ps && order[i] !in rest && k[|killed| + i] == ps[order[i]]
        invariant forall i, j :: 0 <= i < j < |order| ==> order[i] != order[j]
        invariant forall id :: id in ps && id !in rest ==> id in order
        decreases |rest|
      {
        var id :| id in rest;
        k := k + [ps[id]];
        order := order + [id];
        rest := rest - {id};
      }
      KillOrder(ps, killed, k, order);
      killed := k;
    }
  }

  /** Killing the processes of `order`, each registered identifier once, kills every registered process and only those. */
  lemma KillOrder(processes: map<string, Handle>, start: seq<Handle>, killed: seq<Handle>, order: seq<string>)
    requires |killed| == |start| + |order|
    requires forall i :: 0 <= i < |order| ==> order[i] in processes && killed[|start| + i] == processes[order[i]]
    requires forall id :: id in processes ==> id in order
    ensures forall id :: id in processes ==> processes[id] in killed[|start|..]
    ensures forall i :: |start| <= i < |killed| ==> killed[i] in processes.Values
  {
    forall id | id in processes ensures processes[id] in killed[|start|..] {
      var i :| 0 <= i < |order| && order[i] == id;
      assert killed[|start|..][i] == processes[id];
    }
    forall i | |start| <= i < |killed| ensures killed[i] in processes.Values {
      assert killed[i] == processes[order[i - |start|]];
    }
  }

  /** What a run reports for a test: `run.passed` or `run.failed`, each with the output appended to the run. */
  datatype Event =
    | Passed(id: string, log: string)
    | Failed(id: string, message: string, log: string)

  /** The outcome reported for a finished command, from what its Promise settled with (src/extension.ts:107-126). */
  function Report(id: string, result: ExecResult): (e: Event)
    ensures e.id == id
    ensures e.log == NormalizeLineEndings(result.stdout) && NoBareBreaks(e.log)
    ensures result.Resolved? <==> e.Passed?
    ensures e.Failed? ==> e.message == Headline(result.stdout)
  {
    NormalizeHasNoBareBreaks(result.stdout);
    match result
    case Resolved(out) => Passed(id, NormalizeLineEndings(out))
    case Rejected(out) => Failed(id, Headline(out), NormalizeLineEndings(out))
  }

  /**
   * Everything a run depends on besides its queue: the run/debug choice, the two
   * settings, the first workspace folder, the excluded items, the pop from which
   * on cancellation is seen as requested, and the outcome of running a command
   * in a directory.
   */
  datatype Context = Context(
    debug: bool, simulator: string, verbosity: string, folder: Option<string>,
    exclude: seq<TestNode>, cancelAt: Option<nat>, exec: (string, string) -> ExecResult)

  /** `token.isCancellationRequested` at the given pop: once requested it stays requested. */
  predicate Cancelled(c: Context, popped: nat) {
    c.cancelAt.Some? && c.cancelAt.value <= popped
  }

  /** The outcome of running one leaf in the workspace folder. */
  function RunLeaf(c: Context, t: TestNode, folder: string): Event {
    Report(t.id, c.exec(Ids.Command(c.debug, t.id, c.simulator, c.verbosity), folder))
  }

  /** The reported events and the registry after a run. */
  datatype RunState = RunState(report: seq<Event>, processes: map<string, Handle>, killed: seq<Handle>)

  /**
   * The rest of a run from a given stack, pop count and registry: pop the last
   * item; after cancellation kill and forget its process and go on; skip it if
   * excluded; run it if it is a leaf and there is a folder; push its children.
   */
  function Drain(stack: seq<TestNode>, popped: nat, procs: map<string, Handle>, killed: seq<Handle>, c: Context): RunState
    decreases SizeOf(stack)
  {
    if stack == [] then RunState([], procs, killed)
    else
      var t := stack[|stack| - 1];
      var rest := stack[..|stack| - 1];
      SizeOfPop(stack);
      if Cancelled(c, popped) then
        Drain(rest, popped + 1, procs - {t.id}, killed + (if t.id in procs then [procs[t.id]] else []), c)
      else if t in c.exclude then
        Drain(rest, popped + 1, procs, killed, c)
      else
        SizeOfAppend(rest, t.children);
        var ran := t.children == [] && c.folder.Some?;
        var r := Drain(rest + t.children, popped + 1, if ran then procs - {t.id} else procs, killed, c);
        RunState((if ran then [RunLeaf(c, t, c.folder.value)] else []) + r.report, r.processes, r.killed)
  }

  lemma DrainCancelled(stack: seq<TestNode>, popped: nat, procs: map<string, Handle>, killed: seq<Handle>, c: Context)
    requires stack != [] && Cancelled(c, popped)
    ensures var t := stack[|stack| - 1];
            Drain(stack, popped, procs, killed, c) ==
            Drain(stack[..|stack| - 1], popped + 1, procs - {t.id}, killed + (if t.id in procs then [procs[t.id]] else []), c)
  {
  }

  lemma DrainExcluded(stack: seq<TestNode>, popped: nat, procs: map<string, Handle>, killed: seq<Handle>, c: Context)
    requires stack != [] && !Cancelled(c, popped) && stack[|stack| - 1] in c.exclude
    ensures Drain(stack, popped, procs, killed, c) == Drain(stack[..|stack| - 1], popped + 1, procs, killed, c)
  {
  }

  lemma DrainVisit(stack: seq<TestNode>, popped: nat, procs: map<string, Handle>, killed: seq<Handle>, c: Context)
    requires stack != [] && !Cancelled(c, popped) && stack[|stack| - 1] !in c.exclude
    ensures var t := stack[|stack| - 1];
            var ran := t.children == [] && c.folder.Some?;
            var r := Drain(stack[..|stack| - 1] + t.children, popped + 1, if ran then procs - {t.id} else procs, killed, c);
            Drain(stack, popped, procs, killed, c) ==
            RunState((if ran then [RunLeaf(c, t, c.folder.value)] else []) + r.report, r.processes, r.killed)
  {
  }

  /** `execTest`: register the started process under the test's identifier and wait for it to settle. */
  method ExecTest(reg: ProcessRegistry, id: string, cmd: string, cwd: string, exec: (string, string) -> ExecResult)
    returns (result: ExecResult)
    modifies reg
    ensures result == exec(cmd, cwd)
    ensures reg.processes == old(reg.processes)[id := Handle(cmd, cwd)]
    ensures reg.killed == old(reg.killed)
  {
    reg.Register(id, Handle(cmd, cwd));
    result := exec(cmd, cwd);
  }

  /**
   * One visited item (src/extension.ts:67-126): a leaf, when there is a workspace
   * folder, has its command run, is reported, and leaves the registry without
   * its identifier.
   */
  method Visit(reg: ProcessRegistry, t: TestNode, c: Context) returns (events: seq<Event>)
    modifies reg
    ensures var ran := t.children == [] && c.folder.Some?;
            events == (if ran then [RunLeaf(c, t, c.folder.value)] else []) &&
            reg.processes == (if ran then old(reg.processes) - {t.id} else old(reg.processes)) &&
            reg.killed == old(reg.killed)
  {
    events := [];
    if t.children == [] && c.folder.Some? {
      var cmd := Ids.Command(c.debug, t.id, c.simulator, c.verbosity);
      var result := ExecTest(reg, t.id, cmd, c.folder.value, c.exec);
      reg.Deregister(t.id);
      events := [Report(t.id, result)];
    }
  }

  /** The queue a run starts from: the requested items, or every top-level item. */
  function InitialQueue(requested: Option<seq<TestNode>>, items: seq<TestNode>): seq<TestNode> {
    if requested.Some? then requested.value else items
  }

  /** src/extension.ts:30-131. */
  method RunHandler(reg: ProcessRegistry, requested: Option<seq<TestNode>>, items: seq<TestNode>, c: Context)
    returns (report: seq<Event>)
    modifies reg
    ensures var d := Drain(InitialQueue(requested, items), 0, old(reg.processes), old(reg.killed), c);
            report == d.report && reg.processes == d.processes && reg.killed == d.killed
  {
    var queue := if requested.Some? then requested.value else items;
    ghost var goal := Drain(queue, 0, reg.processes, reg.killed, c);
    report := [];
    var popped: nat := 0;
    while queue != []
      invariant report + Drain(queue, popped, reg.processes, reg.killed, c).report == goal.report
      invariant Drain(queue, popped, reg.processes, reg.killed, c).processes == goal.processes
      invariant Drain(queue, popped, reg.processes, reg.killed, c).killed == goal.killed
      decreases SizeOf(queue)
    {
      ghost var now := Drain(queue, popped, reg.processes, reg.killed, c);
      var events;
      queue, events := Pop(reg, queue, popped, c);
      ghost var next := Drain(queue, popped + 1, reg.processes, reg.killed, c);
      assert (report + events) + next.report == report + now.report;
      report := report + events;
      popped := popped + 1;
    }
  }

  /**
   * One turn of the run loop (src/extension.ts:52-128): pop the last item, and
   * either kill and forget its process after cancellation, skip it if excluded,
   * or visit it and push its children. What is left of the run is unchanged.
   */
  method Pop(reg: ProcessRegistry, queue: seq<TestNode>, popped: nat, c: Context) returns (rest: seq<TestNode>, events: seq<Event>)
    requires queue != []
    modifies reg
    ensures SizeOf(rest) < SizeOf(queue)
    ensures var d := Drain(rest, popped + 1, reg.processes, reg.killed, c);
            Drain(queue, popped, old(reg.processes), old(reg.killed), c) == RunState(events + d.report, d.processes, d.killed)
  {
    var t := queue[|queue| - 1];
    SizeOfPop(queue);
    rest := queue[..|queue| - 1];
    events := [];
    if Cancelled(c, popped) {
      DrainCancelled(queue, popped, reg.processes, reg.killed, c);
      reg.KillAndForget(t.id);
    } else if t in c.exclude {
      DrainExcluded(queue, popped, reg.processes, reg.killed, c);
    } else {
      DrainVisit(queue, popped, reg.processes, reg.killed, c);
      events := Visit(reg, t, c);
      SizeOfAppend(rest, t.children);
      rest := rest + t.children;
    }
  }

  // ---------------------------------------------------------------------------
  // What a run does

  function Reverse<T>(s: seq<T>): (r: seq<T>)
    ensures |r| == |s|
    ensures forall i :: 0 <= i < |s| ==> r[i] == s[|s| - 1 - i]
  {
    if s == [] then [] else [s[|s| - 1]] + Reverse(s[..|s| - 1])
  }

  lemma ReverseAppend<T>(a: seq<T>, b: seq<T>)
    ensures Reverse(a + b) == Reverse(b) + Reverse(a)
  {
  }

  /** The events of running the given leaves in turn. */
  function RunAll(c: Context, leaves: seq<TestNode>, folder: string): (r: seq<Event>)
    ensures |r| == |leaves|
    ensures forall i :: 0 <= i < |leaves| ==> r[i] == RunLeaf(c, leaves[i], folder)
  {
    seq(|leaves|, i requires 0 <= i < |leaves| => RunLeaf(c, leaves[i], folder))
  }

  lemma RunAllAppend(c: Context, a: seq<TestNode>, b: seq<TestNode>, folder: string)
    ensures RunAll(c, a + b, folder) == RunAll(c, a, folder) + RunAll(c, b, folder)
  {
    var l, r := RunAll(c, a + b, folder), RunAll(c, a, folder) + RunAll(c, b, folder);
    forall i | 0 <= i < |l| ensures l[i] == r[i] {
      if i < |a| {
        assert (a + b)[i] == a[i];
      } else {
        assert (a + b)[i] == b[i - |a|];
      }
    }
  }

  /**
   * An uncancelled run with a workspace folder reports exactly the leaves under
   * the queued items that are not excluded, each once, in the reverse of their
   * pre-order: the last queued item's last leaf first.
   */
  lemma {:induction false} DrainReportsLeaves(stack: seq<TestNode>, popped: nat, procs: map<string, Handle>, killed: seq<Handle>, c: Context)
    requires c.cancelAt.None? && c.folder.Some?
    ensures Drain(stack, popped, procs, killed, c).report == RunAll(c, Reverse(LeavesOf(stack, c.exclude)), c.folder.value)
    decreases SizeOf(stack)
  {
    if stack != [] {
      var t := stack[|stack| - 1];
      var rest := stack[..|stack| - 1];
      SizeOfPop(stack);
      assert LeavesOf(stack, c.exclude) == LeavesOf(rest, c.exclude) + Leaves(t, c.exclude);
      if t in c.exclude {
        DrainExcluded(stack, popped, procs, killed, c);
        DrainReportsLeaves(rest, popped + 1, procs, killed, c);
        assert LeavesOf(stack, c.exclude) == LeavesOf(rest, c.exclude);
      } else if t.children == [] {
        DrainVisit(stack, popped, procs, killed, c);
        assert rest + t.children == rest;
        DrainReportsLeaves(rest, popped + 1, procs - {t.id}, killed, c);
        RunLeafLast(c, LeavesOf(rest, c.exclude), t, c.folder.value);
      } else {
        DrainVisit(stack, popped, procs, killed, c);
        SizeOfAppend(rest, t.children);
        DrainReportsLeaves(rest + t.children, popped + 1, procs, killed, c);
        LeavesOfAppend(rest, t.children, c.exclude);
      }
    }
  }

  /** Running a list of leaves in reverse runs its last leaf first. */
  lemma RunLeafLast(c: Context, leaves: seq<TestNode>, t: TestNode, folder: string)
    ensures RunAll(c, Reverse(leaves + [t]), folder) == [RunLeaf(c, t, folder)] + RunAll(c, Reverse(leaves), folder)
  {
    ReverseAppend(leaves, [t]);
    RunAllAppend(c, Reverse([t]), Reverse(leaves), folder);
  }

  /** Without a workspace folder and without cancellation nothing is run or reported, and the registry is untouched. */
  lemma {:induction false} DrainWithoutFolder(stack: seq<TestNode>, popped: nat, procs: map<string, Handle>, killed: seq<Handle>, c: Context)
    requires c.folder.None? && c.cancelAt.None?
    ensures Drain(stack, popped, procs, killed, c) == RunState([], procs, killed)
    decreases SizeOf(stack)
  {
    if stack != [] {
      var t := stack[|stack| - 1];
      var rest := stack[..|stack| - 1];
      SizeOfPop(stack);
      if t in c.exclude {
        DrainWithoutFolder(rest, popped + 1, procs, killed, c);
      } else {
        SizeOfAppend(rest, t.children);
        DrainWithoutFolder(rest + t.children, popped + 1, procs, killed, c);
      }
    }
  }

  /** Once cancellation is requested nothing more is reported; the rest of the queue is only killed and forgotten. */
  lemma {:induction false} DrainAfterCancel(stack: seq<TestNode>, popped: nat, procs: map<string, Handle>, killed: seq<Handle>, c: Context)
    requires Cancelled(c, popped)
    ensures Drain(stack, popped, procs, killed, c).report == []
    decreases SizeOf(stack)
  {
    if stack != [] {
      var t := stack[|stack| - 1];
      SizeOfPop(stack);
      DrainAfterCancel(stack[..|stack| - 1], popped + 1, procs - {t.id},
                       killed + (if t.id in procs then [procs[t.id]] else []), c);
    }
  }

  /**
   * The events of the first `n` pops of an uncancelled run from the given stack:
   * the same choices as `Drain`, stopped after `n` turns of the loop.
   */
  function ReportOfPops(stack: seq<TestNode>, n: nat, c: Context): seq<Event>
    decreases n
  {
    if stack == [] || n == 0 then []
    else
      var t := stack[|stack| - 1];
      var rest := stack[..|stack| - 1];
      if t in c.exclude then ReportOfPops(rest, n - 1, c)
      else
        var ran := t.children == [] && c.folder.Some?;
        (if ran then [RunLeaf(c, t, c.folder.value)] else []) + ReportOfPops(rest + t.children, n - 1, c)
  }

  /**
   * A run cancelled from pop `k` on reports exactly what the first `k` pops of
   * the run report when nothing cancels it: the loop goes on as before until the
   * token is seen, then reports nothing more.
   */
  lemma {:induction false} CancelledReport(stack: seq<TestNode>, popped: nat, procs: map<string, Handle>, killed: seq<Handle>, c: Context, k: nat)
    requires c.cancelAt == Some(k)
    ensures Drain(stack, popped, procs, killed, c).report == ReportOfPops(stack, if k >= popped then k - popped else 0, c)
    decreases SizeOf(stack)
  {
    if stack != [] {
      var t := stack[|stack| - 1];
      var rest := stack[..|stack| - 1];
      SizeOfPop(stack);
      if Cancelled(c, popped) {
        DrainAfterCancel(stack, popped, procs, killed, c);
      } else if t in c.exclude {
        DrainExcluded(stack, popped, procs, killed, c);
        CancelledReport(rest, popped + 1, procs, killed, c, k);
      } else {
        var ran := t.children == [] && c.folder.Some?;
        DrainVisit(stack, popped, procs, killed, c);
        SizeOfAppend(rest, t.children);
        CancelledReport(rest + t.children, popped + 1, if ran then procs - {t.id} else procs, killed, c, k);
      }
    }
  }

  /**
   * A run takes one pop per node under the queued items: given at least that
   * many pops, the bounded walk reports everything the uncancelled run reports.
   */
  lemma {:induction false} PopsCoverRun(stack: seq<TestNode>, n: nat, popped: nat, procs: map<string, Handle>, killed: seq<Handle>, c: Context)
    requires SizeOf(stack) <= n
    ensures ReportOfPops(stack, n, c) == Drain(stack, popped, procs, killed, c.(cancelAt := None)).report
    decreases SizeOf(stack)
  {
    var u := c.(cancelAt := None);
    if stack != [] {
      var t := stack[|stack| - 1];
      var rest := stack[..|stack| - 1];
      PopShrinks(stack);
      SizeOfPop(stack);
      if t in c.exclude {
        DrainExcluded(stack, popped, procs, killed, u);
        PopsCoverRun(rest, n - 1, popped + 1, procs, killed, c);
      } else {
        var ran := t.children == [] && c.folder.Some?;
        DrainVisit(stack, popped, procs, killed, u);
        PopsCoverRun(rest + t.children, n - 1, popped + 1, if ran then procs - {t.id} else procs, killed, c);
        if ran {
          assert RunLeaf(c, t, c.folder.value) == RunLeaf(u, t, c.folder.value);
        }
      }
    }
  }

  /**
   * Cancelling only cuts a run short: what a cancelled run reports is a prefix
   * of what the same run reports uncancelled, whatever the registry holds.
   */
  lemma {:induction false} CancelledIsPrefix(stack: seq<TestNode>, popped: nat, procs: map<string, Handle>, killed: seq<Handle>,
                                             procs': map<string, Handle>, killed': seq<Handle>, c: Context)
    ensures Drain(stack, popped, procs, killed, c).report <= Drain(stack, popped, procs', killed', c.(cancelAt := None)).report
    decreases SizeOf(stack)
  {
    var u := c.(cancelAt := None);
    if stack != [] && !Cancelled(c, popped) {
      var t := stack[|stack| - 1];
      var rest := stack[..|stack| - 1];
      SizeOfPop(stack);
      if t in c.exclude {
        CancelledIsPrefix(rest, popped + 1, procs, killed, procs', killed', c);
      } else {
        var ran := t.children == [] && c.folder.Some?;
        SizeOfAppend(rest, t.children);
        CancelledIsPrefix(rest + t.children, popped + 1, if ran then procs - {t.id} else procs, killed,
                          if ran then procs' - {t.id} else procs', killed', c);
        if ran {
          assert RunLeaf(c, t, c.folder.value) == RunLeaf(u, t, c.folder.value);
        }
      }
    } else if stack != [] {
      DrainAfterCancel(stack, popped, procs, killed, c);
    }
  }

  /**
   * The registry after a run: no identifier is added, every reported test's
   * identifier is gone, and every process killed was already registered when the
   * run began, so a run never kills a process it started itself.
   */
  lemma {:induction false} DrainRegistry(stack: seq<TestNode>, popped: nat, procs: map<string, Handle>, killed: seq<Handle>, c: Context)
    ensures var d := Drain(stack, popped, procs, killed, c);
            d.processes.Keys <= procs.Keys &&
            (forall e :: e in d.report ==> e.id !in d.processes) &&
            |killed| <= |d.killed| && d.killed[..|killed|] == killed &&
            (forall i :: |killed| <= i < |d.killed| ==> d.killed[i] in procs.Values)
    decreases SizeOf(stack)
  {
    if stack != [] {
      var t := stack[|stack| - 1];
      var rest := stack[..|stack| - 1];
      SizeOfPop(stack);
      if Cancelled(c, popped) {
        var k := killed + (if t.id in procs then [procs[t.id]] else []);
        DrainRegistry(rest, popped + 1, procs - {t.id}, k, c);
        var d := Drain(rest, popped + 1, procs - {t.id}, k, c);
        assert d.killed[..|k|][..|killed|] == d.killed[..|killed|];
        forall i | |killed| <= i < |d.killed| ensures d.killed[i] in procs.Values {
          if i >= |k| {
            assert d.killed[i] in (procs - {t.id}).Values;
          } else {
            assert d.killed[i] == k[i];
          }
        }
      } else if t in c.exclude {
        DrainRegistry(rest, popped + 1, procs, killed, c);
      } else {
        var ran := t.children == [] && c.folder.Some?;
        var p := if ran then procs - {t.id} else procs;
        SizeOfAppend(rest, t.children);
        DrainRegistry(rest + t.children, popped + 1, p, killed, c);
        var d := Drain(rest + t.children, popped + 1, p, killed, c);
        forall i | |killed| <= i < |d.killed| ensures d.killed[i] in procs.Values {
          assert d.killed[i] in p.Values;
        }
      }
    }
  }

  /** Without cancellation nothing is killed, and just the identifiers of the tests run leave the registry. */
  lemma {:induction false} UncancelledRegistry(stack: seq<TestNode>, popped: nat, procs: map<string, Handle>, killed: seq<Handle>, c: Context)
    requires c.cancelAt.None? && c.folder.Some?
    ensures var d := Drain(stack, popped, procs, killed, c);
            d.killed == killed && d.processes == procs - (set t | t in LeavesOf(stack, c.exclude) :: t.id)
    decreases SizeOf(stack)
  {
    if stack == [] {
      assert procs - {} == procs;
    } else {
      var t := stack[|stack| - 1];
      var rest := stack[..|stack| - 1];
      SizeOfPop(stack);
      var ids := set x | x in LeavesOf(stack, c.exclude) :: x.id;
      var restIds := set x | x in LeavesOf(rest, c.exclude) :: x.id;
      assert LeavesOf(stack, c.exclude) == LeavesOf(rest, c.exclude) + Leaves(t, c.exclude);
      if t in c.exclude {
        UncancelledRegistry(rest, popped + 1, procs, killed, c);
        assert ids == restIds;
      } else if t.children == [] {
        assert rest + t.children == rest;
        UncancelledRegistry(rest, popped + 1, procs - {t.id}, killed, c);
        assert ids == restIds + {t.id};
        assert (procs - {t.id}) - restIds == procs - ids;
      } else {
        SizeOfAppend(rest, t.children);
        UncancelledRegistry(rest + t.children, popped + 1, procs, killed, c);
        LeavesOfAppend(rest, t.children, c.exclude);
      }
    }
  }
}
