/** The process tree (find_parent_index, insert_process_node and rebuild_process_tree in src/gui.c):
    a possibly cyclic parent map becomes a forest. */
module ProcessTree {
  import opened WideStrings
  import opened Events
  import opened StoreModel

  /** find_parent_index: -1 for a record without a listed parent. */
  function ParentIndex(ps: seq<ProcessRecord>, child: nat): int
    requires child < |ps|
  {
    var parent := ps[child].parent;
    if parent.pid == 0 || parent.pid == ps[child].key.pid then -1
    else match FindProcess(ps, parent) case None => -1 case Some(i) => i
  }

  /** The record may stand for the process this key names: the same identity, or active and
      matching under the wildcard rule. */
  predicate StandsFor(r: ProcessRecord, key: ProcessKey) {
    KeysMatch(r.key, key) && (r.active || (r.key == key && key.creationTime != 0))
  }

  /** The parent is another record that stands for the key the child reports: the newest of that very
      identity, or without one the newest that matches.  It is missing exactly when the child reports none,
      or its own PID, or no record stands for the key. */
  lemma ParentIsReal(ps: seq<ProcessRecord>, child: nat)
    requires child < |ps|
    ensures var p := ParentIndex(ps, child); var key := ps[child].parent;
      && -1 <= p < |ps| && p != child
      && (p >= 0 ==> StandsFor(ps[p], key))
      && (p < 0 ==>
            key.pid == 0 || key.pid == ps[child].key.pid || forall i :: 0 <= i < |ps| ==> !StandsFor(ps[i], key))
      && (p >= 0 ==> key.pid != 0 && key.pid != ps[child].key.pid)
      && (p >= 0 ==> forall i :: 0 <= i < |ps| && ps[i].key == key && key.creationTime != 0 ==>
            ps[p].key == key && i <= p)
      && (p >= 0 && !(ps[p].key == key && key.creationTime != 0) ==>
            forall i :: 0 <= i < |ps| && StandsFor(ps[i], key) ==> i <= p)
  {
  }

  /** The parent map of all records. */
  function Parents(ps: seq<ProcessRecord>): (parents: seq<int>)
    ensures |parents| == |ps|
  {
    seq(|ps|, i requires 0 <= i < |ps| => ParentIndex(ps, i))
  }

  ghost predicate ParentMap(parents: seq<int>) {
    forall i :: 0 <= i < |parents| ==> -1 <= parents[i] < |parents| && parents[i] != i
  }

  lemma ParentsMap(ps: seq<ProcessRecord>)
    ensures ParentMap(Parents(ps))
  {
  }

  lemma StartAppends(s: StoreState, e: Event)
    requires e.kind.ProcessStart? && FindProcess(s.processes, e.process).None? && ReserveRecord(s, true).ok
    ensures var t := AddInput(s, Input(e, true, true)).state;
      && |t.processes| == |s.processes| + 1 && s.processes <= t.processes
      && t.processes[|s.processes|].key == e.process && t.processes[|s.processes|].parent == e.parent
      && t.processes[|s.processes|].active
      && t.processCapacity == ReserveRecord(s, true).capacity
  {
    hide ReserveRecord, ReserveEvent, FindProcess;
  }

  const FIRST := ProcessKey(1, 1)
  const SECOND := ProcessKey(2, 2)

  /** The parent map can be cyclic: the first process reports the PID of a parent that is gone, and a
      child of the first gets that PID later. */
  lemma ParentsCanCycle()
    ensures exists inputs :: Parents(Run(inputs).processes) == [1, 0]
  {
    hide Run, AddInput;
    var first := Input(NO_EVENT.(process := FIRST, parent := ProcessKey(SECOND.pid, 0)), true, true);
    var second := Input(NO_EVENT.(process := SECOND, parent := FIRST), true, true);
    var one := AddInput(EMPTY_STORE, first).state;
    var two := AddInput(one, second).state;
    TwoRuns(first, second);
    StartAppends(EMPTY_STORE, first.event);
    StartAppends(one, second.event);
    EachOther(two.processes);
  }

  lemma EachOther(ps: seq<ProcessRecord>)
    requires |ps| == 2 && ps[0].key == ps[1].parent == FIRST
    requires ps[1].key == SECOND && ps[0].parent == ProcessKey(SECOND.pid, 0) && ps[1].active
    ensures Parents(ps) == [1, 0]
  {
  }

  lemma TwoRuns(first: Input, second: Input)
    ensures Run([first, second]) == AddInput(AddInput(EMPTY_STORE, first).state, second).state
  {
    hide AddInput;
    assert [first, second][..1] == [first] && [first][..0] == [];
    RunStep([first, second]);
    RunStep([first]);
    assert Run([]) == EMPTY_STORE;
  }

  // ---- the tree control ----

  /** An item of the tree control; handle h is the h-th item inserted, and 0 is the root. */
  datatype TreeItem = TreeItem(parent: nat, record: nat)

  const TVI_ROOT: nat := 0

  class TreeView {
    var nodes: seq<TreeItem>

    constructor ()
      ensures nodes == []
    {
      nodes := [];
    }

    method DeleteAllItems()
      modifies this
      ensures nodes == []
    {
      nodes := [];
    }

    method InsertItem(parent: nat, record: nat) returns (handle: nat)
      requires parent <= |nodes|
      modifies this
      ensures nodes == old(nodes) + [TreeItem(parent, record)] && handle == |nodes|
    {
      nodes := nodes + [TreeItem(parent, record)];
      handle := |nodes|;
    }
  }

  // ---- cycles of the parent map ----

  /** The next position around a cycle. */
  function After(c: seq<nat>, i: nat): (next: nat)
    requires i < |c|
    ensures next < |c|
  {
    if i + 1 < |c| then i + 1 else 0
  }

  predicate CycleStep(parents: seq<int>, c: seq<nat>, i: nat)
    requires i < |c| && c[i] < |parents|
  {
    parents[c[i]] == c[After(c, i)]
  }

  /** Distinct records, each the parent of the one before, the first the parent of the last. */
  ghost predicate Cycle(parents: seq<int>, c: seq<nat>) {
    && c != []
    && (forall i :: 0 <= i < |c| ==> c[i] < |parents|)
    && (forall i, j :: 0 <= i < j < |c| ==> c[i] != c[j])
    && (forall i :: 0 <= i < |c| ==> CycleStep(parents, c, i))
  }

  /** A cycle that meets another stays in it step by step. */
  lemma {:induction false} CycleFollows(parents: seq<int>, c: seq<nat>, d: seq<nat>, i: nat, j: nat, steps: nat)
    requires Cycle(parents, c) && Cycle(parents, d) && j < |d| && i + steps < |c| && c[i] == d[j]
    ensures c[i + steps] in d
    decreases steps
  {
    if steps == 0 {
    } else {
      assert CycleStep(parents, c, i) && CycleStep(parents, d, j);
      CycleFollows(parents, c, d, i + 1, After(d, j), steps - 1);
    }
  }

  /** Cycles that meet have the same records. */
  lemma CyclesThatMeet(parents: seq<int>, c: seq<nat>, d: seq<nat>, i: nat, k: nat)
    requires Cycle(parents, c) && Cycle(parents, d) && i < |c| && c[i] in d && k < |c|
    ensures c[k] in d
  {
    var j :| 0 <= j < |d| && d[j] == c[i];
    if i <= k {
      CycleFollows(parents, c, d, i, j, k - i);
    } else {
      var last := |c| - 1;
      CycleFollows(parents, c, d, i, j, last - i);
      assert c[i + (last - i)] == c[last];
      var l :| 0 <= l < |d| && d[l] == c[last];
      assert CycleStep(parents, c, last) && CycleStep(parents, d, l);
      CycleFollows(parents, c, d, 0, After(d, l), k);
    }
  }

  // ---- the state of a rebuild ----

  const UNVISITED: nat := 0
  const VISITING: nat := 1
  const PLACED: nat := 2

  /** Record `c` has not been inserted before the item with this handle. */
  ghost predicate NotBefore(items: seq<nat>, states: seq<nat>, handle: nat, c: nat)
    requires c < |items| == |states|
  {
    states[c] == PLACED ==> items[c] > handle
  }

  /** This record closes a cycle of which it was the first to be inserted. */
  ghost predicate ClosesCycle(parents: seq<int>, items: seq<nat>, states: seq<nat>, record: nat, c: seq<nat>)
    requires record < |parents| == |items| == |states|
  {
    && Cycle(parents, c) && c[|c| - 1] == record
    && forall i :: 0 <= i < |c| - 1 ==> NotBefore(items, states, items[record], c[i])
  }

  /** The item hangs below its record's parent, or the record has none or closes a cycle. */
  ghost predicate Hung(parents: seq<int>, nodes: seq<TreeItem>, items: seq<nat>, states: seq<nat>, k: nat)
    requires k < |nodes| && |parents| == |items| == |states|
  {
    var n := nodes[k];
    && n.record < |parents| && states[n.record] == PLACED && items[n.record] == k + 1
    && n.parent <= k
    && if n.parent != TVI_ROOT then parents[n.record] == nodes[n.parent - 1].record
       else parents[n.record] == -1 || exists c :: ClosesCycle(parents, items, states, n.record, c)
  }

  /** The records being visited: each waits for its parent, the next one. */
  ghost predicate Stack(parents: seq<int>, states: seq<nat>, path: seq<nat>)
    requires |parents| == |states|
  {
    && (forall i :: 0 <= i < |path| ==> path[i] < |parents| && states[path[i]] == VISITING)
    && (forall i :: 0 <= i < |states| && states[i] == VISITING ==> i in path)
    && (forall i, j :: 0 <= i < j < |path| ==> path[i] != path[j])
    && (forall i, j :: 0 <= i < |path| && j == i + 1 < |path| ==> parents[path[i]] == path[j])
  }

  ghost predicate Building(parents: seq<int>, nodes: seq<TreeItem>, items: seq<nat>, states: seq<nat>, path: seq<nat>) {
    && |parents| == |items| == |states|
    && ParentMap(parents)
    && (forall i :: 0 <= i < |states| ==> states[i] <= PLACED)
    && Stack(parents, states, path)
    && (forall i :: 0 <= i < |states| && states[i] == PLACED ==>
          0 < items[i] <= |nodes| && nodes[items[i] - 1].record == i)
    && (forall k :: 0 <= k < |nodes| ==> Hung(parents, nodes, items, states, k))
  }

  ghost function Unvisited(states: seq<nat>): set<nat> {
    set i: nat | i < |states| && states[i] == UNVISITED
  }

  lemma UnvisitedShrinks(before: seq<nat>, after: seq<nat>, i: nat)
    requires |before| == |after| && i < |before| && before[i] == UNVISITED && after[i] != UNVISITED
    requires forall k :: 0 <= k < |before| && before[k] != UNVISITED ==> after[k] != UNVISITED
    ensures |Unvisited(after)| < |Unvisited(before)|
  {
    assert Unvisited(after) <= Unvisited(before) - {i};
    SubsetSize(Unvisited(after), Unvisited(before) - {i});
  }

  lemma {:induction false} SubsetSize(a: set<nat>, b: set<nat>)
    requires a <= b
    ensures |a| <= |b|
  {
    if a == {} {
    } else {
      var x :| x in a;
      SubsetSize(a - {x}, b - {x});
    }
  }

  /** Starting a visit puts the record on the stack. */
  lemma VisitBegins(parents: seq<int>, nodes: seq<TreeItem>, items: seq<nat>, states: seq<nat>, path: seq<nat>,
                    index: nat)
    requires Building(parents, nodes, items, states, path)
    requires index < |parents| && states[index] == UNVISITED
    requires path != [] ==> parents[path[|path| - 1]] == index
    ensures Building(parents, nodes, items, states[index := VISITING], path + [index])
  {
    var after := states[index := VISITING];
    forall i | 0 <= i < |after| && after[i] == VISITING ensures i in path + [index] {
      assert i == index || i in path;
    }
    forall k | 0 <= k < |nodes| ensures Hung(parents, nodes, items, after, k) {
      HungStays(parents, nodes, nodes, items, items, states, after, k);
    }
  }

  /** An item stays hung while records are visited and further items are inserted. */
  lemma HungStays(parents: seq<int>, nodes: seq<TreeItem>, later: seq<TreeItem>, items: seq<nat>, laterItems: seq<nat>,
                  states: seq<nat>, laterStates: seq<nat>, k: nat)
    requires k < |nodes| && nodes <= later && |parents| == |items| == |states| == |laterItems| == |laterStates|
    requires Hung(parents, nodes, items, states, k)
    requires forall i :: 0 <= i < |states| && states[i] == PLACED ==>
      laterStates[i] == PLACED && laterItems[i] == items[i]
    requires forall i :: 0 <= i < |states| && states[i] != PLACED && laterStates[i] == PLACED ==>
      laterItems[i] > |nodes|
    ensures Hung(parents, later, laterItems, laterStates, k)
  {
    var r := nodes[k].record;
    if nodes[k].parent == TVI_ROOT && parents[r] != -1 {
      var c :| ClosesCycle(parents, items, states, r, c);
      assert ClosesCycle(parents, laterItems, laterStates, r, c);
    }
  }

  /** A record whose parent is being visited closes a cycle: the stack from the parent up. */
  lemma StackCycle(parents: seq<int>, states: seq<nat>, path: seq<nat>) returns (c: seq<nat>)
    requires |parents| == |states| && Stack(parents, states, path) && path != []
    requires parents[path[|path| - 1]] in path
    ensures Cycle(parents, c) && c[|c| - 1] == path[|path| - 1]
    ensures forall i :: 0 <= i < |c| ==> states[c[i]] == VISITING
  {
    hide Stack, CycleStep;
    StackTop(parents, states, path);
    var a: nat :| a < |path| && path[a] == parents[path[|path| - 1]];
    c := path[a..];
    StackSuffix(parents, states, path, a);
    forall i | 0 <= i < |c| ensures CycleStep(parents, c, i) {
      StackStep(parents, states, path, a, i);
    }
  }

  lemma StackTop(parents: seq<int>, states: seq<nat>, path: seq<nat>)
    requires |parents| == |states| && Stack(parents, states, path) && path != []
    ensures path[|path| - 1] < |parents|
  {
  }

  lemma StackSuffix(parents: seq<int>, states: seq<nat>, path: seq<nat>, a: nat)
    requires |parents| == |states| && Stack(parents, states, path) && a < |path|
    ensures var c := path[a..];
      && c[|c| - 1] == path[|path| - 1]
      && (forall i :: 0 <= i < |c| ==> c[i] < |states| && states[c[i]] == VISITING)
      && (forall i, j :: 0 <= i < j < |c| ==> c[i] != c[j])
  {
  }

  lemma StackStep(parents: seq<int>, states: seq<nat>, path: seq<nat>, a: nat, i: nat)
    requires |parents| == |states| && Stack(parents, states, path) && a < |path| && i < |path| - a
    requires parents[path[|path| - 1]] == path[a]
    ensures CycleStep(parents, path[a..], i)
  {
  }

  /** Inserting the item of the record on top of the stack. */
  lemma VisitEnds(parents: seq<int>, nodes: seq<TreeItem>, items: seq<nat>, states: seq<nat>, path: seq<nat>,
                  index: nat, parent: nat)
    requires Building(parents, nodes, items, states, path + [index])
    requires parent <= |nodes| && index < |parents|
    requires if parent != TVI_ROOT then parents[index] == nodes[parent - 1].record
             else parents[index] == -1 || parents[index] in path + [index]
    ensures Building(parents, nodes + [TreeItem(parent, index)], items[index := |nodes| + 1],
                     states[index := PLACED], path)
  {
    var stack := path + [index];
    assert stack[|path|] == index;
    var later := nodes + [TreeItem(parent, index)];
    var (laterItems, laterStates) := (items[index := |nodes| + 1], states[index := PLACED]);
    forall k | 0 <= k < |nodes| ensures Hung(parents, later, laterItems, laterStates, k) {
      HungStays(parents, nodes, later, items, laterItems, states, laterStates, k);
    }
    if parent == TVI_ROOT && parents[index] != -1 {
      var c := StackCycle(parents, states, stack);
      assert ClosesCycle(parents, laterItems, laterStates, index, c);
    }
    assert Hung(parents, later, laterItems, laterStates, |nodes|);
    StackPops(parents, states, path, index);
  }

  lemma StackHolds(parents: seq<int>, states: seq<nat>, path: seq<nat>, index: nat)
    requires |parents| == |states| && Stack(parents, states, path) && index < |states| && states[index] == VISITING
    ensures index in path
  {
  }

  lemma StackPops(parents: seq<int>, states: seq<nat>, path: seq<nat>, index: nat)
    requires |parents| == |states| && index < |states| && Stack(parents, states, path + [index])
    ensures Stack(parents, states[index := PLACED], path)
  {
    var stack := path + [index];
    assert stack[|path|] == index && forall i :: 0 <= i < |path| ==> stack[i] == path[i];
    forall i | 0 <= i < |states| && i != index && states[i] == VISITING ensures i in path {
      assert i in stack;
    }
  }

  // ---- the rebuild ----

  /** insert_process_node: inserts the record after its ancestors, unless it is already inserted or
      being visited; `path` is the recursion in progress. */
  method InsertProcessNode(tree: TreeView, ps: seq<ProcessRecord>, index: nat, items: array<nat>, states: array<nat>,
                           ghost path: seq<nat>)
    returns (item: nat)
    requires items != states && index < |ps|
    requires Building(Parents(ps), tree.nodes, items[..], states[..], path)
    requires path != [] ==> Parents(ps)[path[|path| - 1]] == index
    modifies tree, items, states
    ensures Building(Parents(ps), tree.nodes, items[..], states[..], path)
    ensures old(tree.nodes) <= tree.nodes
    ensures if old(states[index]) == VISITING then item == TVI_ROOT && tree.nodes == old(tree.nodes) && index in path
            else states[index] == PLACED && item == items[index]
    ensures forall i :: 0 <= i < |ps| && old(states[i]) == PLACED ==> states[i] == PLACED
    ensures forall i :: 0 <= i < |ps| && old(states[i]) == VISITING ==> states[i] == VISITING
    decreases |Unvisited(states[..])|
  {
    hide Hung, ParentIndex, Stack;
    if states[index] == PLACED {
      return items[index];
    }
    if states[index] == VISITING {
      StackHolds(Parents(ps), states[..], path, index);
      return TVI_ROOT;
    }
    ghost var before := states[..];
    VisitBegins(Parents(ps), tree.nodes, items[..], states[..], path, index);
    states[index] := VISITING;
    assert states[..] == before[index := VISITING];
    UnvisitedShrinks(before, states[..], index);
    var parentItem := TVI_ROOT;
    var parent := ParentIndex(ps, index);
    if parent >= 0 && parent != index {
      parentItem := InsertProcessNode(tree, ps, parent, items, states, path + [index]);
    }
    ghost var (nodes, handles, marks) := (tree.nodes, items[..], states[..]);
    VisitEnds(Parents(ps), nodes, handles, marks, path, index, parentItem);
    items[index] := tree.InsertItem(parentItem, index);
    states[index] := PLACED;
    assert items[..] == handles[index := |nodes| + 1] && states[..] == marks[index := PLACED];
    return items[index];
  }

  /** rebuild_process_tree; `memory` says whether both callocs succeed.  The ghost result gives the
      handle of each record. */
  method RebuildProcessTree(tree: TreeView, ps: seq<ProcessRecord>, memory: bool) returns (ghost handles: seq<nat>)
    modifies tree
    ensures if memory then Finished(Parents(ps), tree.nodes, handles) else tree.nodes == []
  {
    hide Hung, ParentIndex, Stack;
    ParentsMap(ps);
    tree.DeleteAllItems();
    handles := [];
    if |ps| == 0 {
      NothingPlaced(Parents(ps), [], []);
      return;
    }
    if !memory {
      return;
    }
    var items := new nat[|ps|](i => TVI_ROOT);
    var states := new nat[|ps|](i => UNVISITED);
    NothingPlaced(Parents(ps), items[..], states[..]);
    for index := 0 to |ps|
      invariant Building(Parents(ps), tree.nodes, items[..], states[..], [])
      invariant forall i :: 0 <= i < index ==> states[i] == PLACED
    {
      var item := InsertProcessNode(tree, ps, index, items, states, []);
    }
    handles := items[..];
    assert states[..] == seq(|ps|, i => PLACED);
  }

  lemma NothingPlaced(parents: seq<int>, items: seq<nat>, states: seq<nat>)
    requires ParentMap(parents) && |parents| == |items| == |states|
    requires forall i :: 0 <= i < |states| ==> states[i] == UNVISITED
    ensures Building(parents, [], items, states, [])
    ensures parents == [] ==> Finished(parents, [], items)
  {
  }

  /** The tree once every record is placed. */
  ghost predicate Finished(parents: seq<int>, nodes: seq<TreeItem>, handles: seq<nat>) {
    Building(parents, nodes, handles, seq(|parents|, i => PLACED), [])
  }

  /** The record has a parent but hangs below the root. */
  predicate Cut(parents: seq<int>, nodes: seq<TreeItem>, handles: seq<nat>, r: nat)
    requires r < |parents| == |handles| && 0 < handles[r] <= |nodes|
  {
    nodes[handles[r] - 1].parent == TVI_ROOT && parents[r] != -1
  }

  /** Every record is inserted exactly once; an item that is not at the root hangs below the item of
      its record's parent, inserted before it, so the items form a forest; and an edge of the parent
      map is missing only on a cycle. */
  lemma TreeIsForest(parents: seq<int>, nodes: seq<TreeItem>, handles: seq<nat>, r: nat)
    requires Finished(parents, nodes, handles) && r < |parents|
    ensures |handles| == |parents| && 0 < handles[r] <= |nodes|
    ensures forall k :: 0 <= k < |nodes| ==> nodes[k].record < |parents|
    ensures forall k :: 0 <= k < |nodes| ==> (nodes[k].record == r <==> k == handles[r] - 1)
    ensures var n := nodes[handles[r] - 1];
      n.parent != TVI_ROOT ==> parents[r] >= 0 && n.parent == handles[parents[r]] < handles[r]
    ensures Cut(parents, nodes, handles, r) ==> exists c :: Cycle(parents, c) && r in c
  {
    var states := seq(|parents|, i => PLACED);
    assert states[r] == PLACED;
    var k := handles[r] - 1;
    assert Hung(parents, nodes, handles, states, k);
    forall m | 0 <= m < |nodes| ensures nodes[m].record < |parents| {
      assert Hung(parents, nodes, handles, states, m);
    }
    forall m | 0 <= m < |nodes| && nodes[m].record == r ensures m == k {
      assert Hung(parents, nodes, handles, states, m);
    }
    if nodes[k].parent != TVI_ROOT {
      assert Hung(parents, nodes, handles, states, nodes[k].parent - 1);
    }
  }

  /** A cut record was inserted before all other records of its cycle. */
  lemma CutFirst(parents: seq<int>, nodes: seq<TreeItem>, handles: seq<nat>, c: seq<nat>, i: nat, k: nat)
    requires Finished(parents, nodes, handles) && Cycle(parents, c) && i < |c| && k < |c|
    requires 0 < handles[c[i]] <= |nodes| && Cut(parents, nodes, handles, c[i])
    ensures i == k || handles[c[i]] < handles[c[k]]
  {
    var states := seq(|parents|, i => PLACED);
    var r := c[i];
    assert states[r] == PLACED;
    assert Hung(parents, nodes, handles, states, handles[r] - 1);
    var d :| ClosesCycle(parents, handles, states, r, d);
    CyclesThatMeet(parents, c, d, i, k);
    var j :| 0 <= j < |d| && d[j] == c[k];
    if j < |d| - 1 {
      assert NotBefore(handles, states, handles[r], d[j]);
    }
  }

  lemma {:induction false} KeptDescends(parents: seq<int>, nodes: seq<TreeItem>, handles: seq<nat>, c: seq<nat>, i: nat)
    requires Finished(parents, nodes, handles) && Cycle(parents, c) && i < |c|
    requires forall k :: 0 <= k < |c| ==> 0 < handles[c[k]] <= |nodes| && !Cut(parents, nodes, handles, c[k])
    ensures handles[c[After(c, i)]] < handles[c[i]] <= handles[c[0]]
  {
    hide Building;
    assert CycleStep(parents, c, i);
    TreeIsForest(parents, nodes, handles, c[i]);
    if i == 0 {
    } else {
      assert CycleStep(parents, c, i - 1);
      KeptDescends(parents, nodes, handles, c, i - 1);
    }
  }

  /** Each cycle of the parent map loses exactly one edge. */
  lemma OneCutPerCycle(parents: seq<int>, nodes: seq<TreeItem>, handles: seq<nat>, c: seq<nat>)
    requires Finished(parents, nodes, handles) && Cycle(parents, c)
    ensures forall i :: 0 <= i < |c| ==> 0 < handles[c[i]] <= |nodes|
    ensures exists i :: 0 <= i < |c| && Cut(parents, nodes, handles, c[i])
    ensures forall i, j | 0 <= i < |c| && 0 <= j < |c| ::
      Cut(parents, nodes, handles, c[i]) && Cut(parents, nodes, handles, c[j]) ==> i == j
  {
    hide Building;
    TreeIsForest(parents, nodes, handles, c[0]);
    forall i | 0 <= i < |c| ensures 0 < handles[c[i]] <= |nodes| {
      TreeIsForest(parents, nodes, handles, c[i]);
    }
    if forall i :: 0 <= i < |c| ==> !Cut(parents, nodes, handles, c[i]) {
      KeptDescends(parents, nodes, handles, c, |c| - 1);
      assert false;
    }
    forall i, j | 0 <= i < |c| && 0 <= j < |c| &&
      Cut(parents, nodes, handles, c[i]) && Cut(parents, nodes, handles, c[j])
      ensures i == j
    {
      CutFirst(parents, nodes, handles, c, i, j);
      CutFirst(parents, nodes, handles, c, j, i);
    }
  }
}
