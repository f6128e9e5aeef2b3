/** The discovered test tree: nodes with ordered children, as the host's test items hold them. */
module Tree {
  import opened Base
  import opened Patterns

  /**
   * A test item: identifier, display label (`title`), the bench file it was declared in
   * and the range of its marker there (bench cases only), and its children in
   * insertion order. A node without children is a runnable leaf.
   */
  datatype TestNode = TestNode(id: string, title: string, uri: Option<string>, range: Option<Range>, children: seq<TestNode>)

  /** The number of nodes in a tree. */
  function Size(t: TestNode): nat
    decreases t, 1
  {
    1 + SizeOf(t.children)
  }

  /** The number of nodes in a sequence of trees. */
  function SizeOf(ts: seq<TestNode>): nat
    decreases ts, 0
  {
    if ts == [] then 0 else SizeOf(ts[..|ts| - 1]) + Size(ts[|ts| - 1])
  }

  lemma SizeOfPop(ts: seq<TestNode>)
    requires ts != []
    ensures SizeOf(ts) == SizeOf(ts[..|ts| - 1]) + 1 + SizeOf(ts[|ts| - 1].children)
  {
  }

  lemma {:induction false} SizeOfAppend(a: seq<TestNode>, b: seq<TestNode>)
    ensures SizeOf(a + b) == SizeOf(a) + SizeOf(b)
    decreases |b|
  {
    if b == [] {
      assert a + b == a;
    } else {
      assert (a + b)[..|a + b| - 1] == a + b[..|b| - 1];
      SizeOfAppend(a, b[..|b| - 1]);
    }
  }

  /**
   * Popping the last tree of a stack and pushing its children in its place removes
   * exactly one node: the walk over the stack ends.
   */
  lemma PopShrinks(ts: seq<TestNode>)
    requires ts != []
    ensures SizeOf(ts[..|ts| - 1] + ts[|ts| - 1].children) + 1 == SizeOf(ts)
  {
    SizeOfPop(ts);
    SizeOfAppend(ts[..|ts| - 1], ts[|ts| - 1].children);
  }

  /**
   * The leaves reachable from `t` in pre-order without passing through a node of
   * `exclude`: the tests a run of `t` is meant to execute.
   */
  function Leaves(t: TestNode, exclude: seq<TestNode>): seq<TestNode>
    decreases t, 1
  {
    if t in exclude then []
    else if t.children == [] then [t]
    else LeavesOf(t.children, exclude)
  }

  function LeavesOf(ts: seq<TestNode>, exclude: seq<TestNode>): seq<TestNode>
    decreases ts, 0
  {
    if ts == [] then [] else LeavesOf(ts[..|ts| - 1], exclude) + Leaves(ts[|ts| - 1], exclude)
  }

  lemma {:induction false} LeavesOfAppend(a: seq<TestNode>, b: seq<TestNode>, exclude: seq<TestNode>)
    ensures LeavesOf(a + b, exclude) == LeavesOf(a, exclude) + LeavesOf(b, exclude)
    decreases |b|
  {
    if b == [] {
      assert a + b == a;
    } else {
      assert (a + b)[..|a + b| - 1] == a + b[..|b| - 1];
      assert (a + b)[|a + b| - 1] == b[|b| - 1];
      LeavesOfAppend(a, b[..|b| - 1], exclude);
    }
  }

  /** The number of leaves of a tree, counting every node without children. */
  function LeafCount(t: TestNode): nat
    decreases t, 1
  {
    if t.children == [] then 1 else LeafCountOf(t.children)
  }

  function LeafCountOf(ts: seq<TestNode>): nat
    decreases ts, 0
  {
    if ts == [] then 0 else LeafCountOf(ts[..|ts| - 1]) + LeafCount(ts[|ts| - 1])
  }

  // ---------------------------------------------------------------------------
  // A collection of test items keyed by identifier

  /** The identifiers of a collection. */
  function IdsOf(ts: seq<TestNode>): set<string> {
    set t | t in ts :: t.id
  }

  /** No two items of a collection share an identifier. */
  predicate UniqueIds(ts: seq<TestNode>) {
    forall i, j :: 0 <= i < j < |ts| ==> ts[i].id != ts[j].id
  }

  /** The position of the first item with the given identifier. */
  function IndexOfId(ts: seq<TestNode>, id: string, from: nat): (r: Option<nat>)
    ensures r.Some? ==> from <= r.value < |ts| && ts[r.value].id == id
    ensures r.Some? ==> forall j :: from <= j < r.value ==> ts[j].id != id
    ensures r.None? ==> forall j :: from <= j < |ts| ==> ts[j].id != id
  {
    var f := (j: nat) => if j < |ts| && ts[j].id == id then Some(j) else None;
    var r := FindFirst(f, from, |ts|);
    if r.None? then
      assert forall j :: from <= j < |ts| ==> ts[j].id != id by {
        forall j | from <= j < |ts| ensures ts[j].id != id { assert f(j).None?; }
      }
      None
    else
      var j := r.value.0;
      assert f(j).Some?;
      assert forall k :: from <= k < j ==> ts[k].id != id by {
        forall k | from <= k < j ensures ts[k].id != id { assert f(k).None?; }
      }
      Some(j)
  }

  /** `collection.add(item)`: an item with the same identifier is replaced in place, otherwise the item goes last. */
  function AddItem(ts: seq<TestNode>, n: TestNode): (r: seq<TestNode>)
    ensures n.id !in IdsOf(ts) ==> r == ts + [n]
    ensures n.id in IdsOf(ts) ==> exists i :: 0 <= i < |ts| && ts[i].id == n.id && r == ts[i := n]
    ensures n in r
    ensures IdsOf(r) == IdsOf(ts) + {n.id}
    ensures forall t :: t in ts && t.id != n.id ==> t in r
    ensures UniqueIds(ts) ==> UniqueIds(r)
  {
    match IndexOfId(ts, n.id, 0)
    case Some(i) =>
      var r := ts[i := n];
      assert r[i] == n;
      assert forall t :: t in ts && t.id != n.id ==> t in r by {
        forall t | t in ts && t.id != n.id ensures t in r {
          var j :| 0 <= j < |ts| && ts[j] == t;
          assert r[j] == t;
        }
      }
      assert IdsOf(r) == IdsOf(ts) + {n.id} by {
        forall x | x in IdsOf(ts) ensures x in IdsOf(r) {
          var t :| t in ts && t.id == x;
          var j :| 0 <= j < |ts| && ts[j] == t;
          assert r[if j == i then i else j].id == x;
        }
        forall x | x in IdsOf(r) ensures x in IdsOf(ts) + {n.id} {
          var t :| t in r && t.id == x;
          var j :| 0 <= j < |r| && r[j] == t;
          if j != i {
            assert ts[j] == t;
          }
        }
      }
      r
    case None =>
      var r := ts + [n];
      assert r[|ts|] == n;
      assert IdsOf(r) == IdsOf(ts) + {n.id} by {
        forall x | x in IdsOf(r) ensures x in IdsOf(ts) + {n.id} {
          var t :| t in r && t.id == x;
          var j :| 0 <= j < |r| && r[j] == t;
          if j < |ts| {
            assert ts[j] == t;
          }
        }
      }
      r
  }

  /** Adding the given items one after the other. */
  function AddAll(ts: seq<TestNode>, ns: seq<TestNode>): seq<TestNode>
    decreases |ns|
  {
    if ns == [] then ts else AddItem(AddAll(ts, ns[..|ns| - 1]), ns[|ns| - 1])
  }

  /**
   * Adding never loses an identifier: the result holds exactly the old and the
   * added identifiers, every old item whose identifier is not re-added is still
   * there unchanged, and identifiers stay unique.
   */
  lemma {:induction false} AddAllKeeps(ts: seq<TestNode>, ns: seq<TestNode>)
    ensures IdsOf(AddAll(ts, ns)) == IdsOf(ts) + IdsOf(ns)
    ensures forall t :: t in ts && t.id !in IdsOf(ns) ==> t in AddAll(ts, ns)
    ensures UniqueIds(ts) ==> UniqueIds(AddAll(ts, ns))
    decreases |ns|
  {
    if ns != [] {
      var front := ns[..|ns| - 1];
      AddAllKeeps(ts, front);
      IdsOfPop(ns);
    }
  }

  /** The identifiers of a non-empty list: those of its front and its last item. */
  lemma IdsOfPop(ns: seq<TestNode>)
    requires ns != []
    ensures IdsOf(ns) == IdsOf(ns[..|ns| - 1]) + {ns[|ns| - 1].id}
  {
    var front := ns[..|ns| - 1];
    forall x | x in IdsOf(ns) ensures x in IdsOf(front) + {ns[|ns| - 1].id} {
      var t :| t in ns && t.id == x;
      var j :| 0 <= j < |ns| && ns[j] == t;
      if j < |front| {
        assert front[j] == t;
      }
    }
    forall x | x in IdsOf(front) ensures x in IdsOf(ns) {
      var t :| t in front && t.id == x;
      var j :| 0 <= j < |front| && front[j] == t;
      assert ns[j] == t;
    }
  }
}
