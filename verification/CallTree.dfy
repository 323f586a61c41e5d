/** Rebuilding a transaction's call tree from the flat list of traces a node returns. */
module CallTree {

  import opened Wrappers
  import opened Calls

  /** The action of a flat trace. */
  datatype Action = Action(from: nat, to: nat, callType: CallerOp, input: string, value: int)

  function Convert(a: Action): CallData {
    CallData(a.from, a.to, a.callType, a.input, if a.callType.STATICCALL? then None else Some(a.value))
  }

  /** A flat trace: the number of calls made directly from it, and its address in the tree. */
  datatype Entry = Entry(action: Action, subtraces: nat, traceAddress: Path)

  function Parent(p: Path): Path
    requires p != []
  {
    p[..|p| - 1]
  }

  /** The action of a call: same ends, kind and input, and the same value unless the call is static. */
  predicate Sees(a: Action, d: CallData) {
    && d.from == a.from && d.to == a.to && d.callerOp == a.callType && d.input == a.input
    && d.value == if a.callType == STATICCALL then None else Some(a.value)
  }

  predicate Describes(e: Entry, t: Call) {
    At(t, e.traceAddress).Some?
    && Sees(e.action, At(t, e.traceAddress).value.data) && e.subtraces == |At(t, e.traceAddress).value.calls|
  }

  /** The traces of a tree, each call once, in any order that puts callers before callees. */
  ghost predicate Flattening(t: Call, es: seq<Entry>) {
    && es != [] && es[0].traceAddress == []
    && (forall e :: e in es ==> Describes(e, t))
    && (forall i, j :: 0 <= i < j < |es| ==> es[i].traceAddress != es[j].traceAddress)
    && (forall i :: 0 < i < |es| ==> ParentBefore(es, i))
    && (forall p :: At(t, p).Some? ==> Listed(es, |es|, p))
  }

  ghost predicate Listed(es: seq<Entry>, n: nat, p: Path)
    requires n <= |es|
  {
    exists i :: 0 <= i < n && es[i].traceAddress == p
  }

  ghost predicate ParentBefore(es: seq<Entry>, i: nat)
    requires i < |es|
  {
    es[i].traceAddress != [] && Listed(es, i, Parent(es[i].traceAddress))
  }

  lemma AtParent(t: Call, p: Path)
    requires p != [] && At(t, p).Some?
    ensures At(t, Parent(p)).Some? && p[|p| - 1] < |At(t, Parent(p)).value.calls|
  {
    assert p == Parent(p) + [p[|p| - 1]];
    AtStep(t, Parent(p), p[|p| - 1]);
  }

  class CallNode {
    var payload: CallData
    var calls: seq<CallNode?>

    /** All slots start empty. */
    constructor (e: Entry)
      ensures payload == Convert(e.action) && |calls| == e.subtraces && forall i :: 0 <= i < |calls| ==>
              calls[i] == null
    {
      payload := Convert(e.action);
      calls := seq(e.subtraces, i => null);
    }
  }

  /** The object structure below `n` is exactly the tree `t`, every slot filled. */
  ghost predicate Represents(n: CallNode?, t: Call, nodes: set<CallNode>)
    reads nodes
    decreases t
  {
    && n != null && n in nodes
    && n.payload == t.data && |n.calls| == |t.calls|
    && forall i :: 0 <= i < |t.calls| ==> Represents(n.calls[i], t.calls[i], nodes)
  }

  // ---------------------------------------------------------------------------------------------
  // The registry of nodes built so far.

  type Registry = map<Path, CallNode>

  ghost function Payloads(reg: Registry): map<Path, CallData>
    reads reg.Values
  {
    map p | p in reg :: reg[p].payload
  }

  ghost function Slots(reg: Registry): map<Path, seq<CallNode?>>
    reads reg.Values
  {
    map p | p in reg :: reg[p].calls
  }

  /** Each registered node carries its own call's data and points to those of its children that are
      registered; its other slots are still empty. */
  ghost predicate Consistent(t: Call, reg: Registry, payloads: map<Path, CallData>, slots: map<Path, seq<CallNode?>>) {
    && payloads.Keys == reg.Keys && slots.Keys == reg.Keys
    && (forall p :: p in reg ==> NodeAt(t, reg, p, payloads[p], slots[p]))
    && (forall p, q :: p in reg && q in reg && p != q ==> reg[p] != reg[q])
  }

  ghost predicate NodeAt(t: Call, reg: Registry, p: Path, payload: CallData, slots: seq<CallNode?>) {
    At(t, p).Some? &&
    payload == At(t, p).value.data && |slots| == |At(t, p).value.calls|
    && forall c: nat :: c < |slots| ==> slots[c] == if p + [c] in reg then reg[p + [c]] else null
  }

  ghost predicate Linked(t: Call, reg: Registry)
    reads reg.Values
  {
    Consistent(t, reg, Payloads(reg), Slots(reg))
  }

  ghost predicate Closed(reg: Registry) {
    [] in reg && forall p :: p in reg && p != [] ==> Parent(p) in reg
  }

  lemma {:induction false} PrefixRegistered(reg: Registry, p: Path, i: nat)
    requires Closed(reg) && p in reg && i <= |p|
    ensures p[..i] in reg
    decreases |p| - i
  {
    if i < |p| {
      PrefixRegistered(reg, p, i + 1);
      assert Parent(p[..i + 1]) == p[..i];
    } else {
      assert p[..i] == p;
    }
  }

  lemma NodeIs(t: Call, reg: Registry, p: Path)
    requires Linked(t, reg) && p in reg
    ensures NodeAt(t, reg, p, reg[p].payload, reg[p].calls)
  {
    assert Payloads(reg)[p] == reg[p].payload && Slots(reg)[p] == reg[p].calls;
  }

  /** Following a registered address from the root meets only filled slots, within bounds. */
  method Walk(ghost t: Call, root: CallNode, path: Path, ghost reg: Registry) returns (cur: CallNode)
    requires Linked(t, reg) && Closed(reg) && path in reg && root == reg[[]]
    ensures cur == reg[path]
  {
    cur := root;
    var i := 0;
    while i < |path|
      invariant 0 <= i <= |path| && path[..i] in reg && cur == reg[path[..i]]
    {
      PrefixRegistered(reg, path, i + 1);
      assert path[..i + 1] == path[..i] + [path[i]];
      NodeIs(t, reg, path[..i]);
      NodeIs(t, reg, path[..i + 1]);
      AtStep(t, path[..i], path[i]);
      cur := cur.calls[path[i]];
      i := i + 1;
    }
    assert path[..i] == path;
  }

  /** Once every address of the tree is registered, the root represents the tree. */
  lemma {:induction false} RegistryRepresents(t: Call, reg: Registry, p: Path, s: Call)
    requires Linked(t, reg) && p in reg && At(t, p) == Some(s)
    requires forall q :: At(t, q).Some? ==> q in reg
    ensures Represents(reg[p], s, reg.Values)
    decreases s
  {
    NodeIs(t, reg, p);
    forall i | 0 <= i < |s.calls| ensures Represents(reg[p].calls[i], s.calls[i], reg.Values) {
      AtStep(t, p, i);
      assert p + [i] in reg;
      RegistryRepresents(t, reg, p + [i], s.calls[i]);
    }
  }

  lemma ChildUnregistered(reg: Registry, p: Path, c: nat)
    requires Closed(reg) && p !in reg
    ensures p + [c] !in reg
  {
    assert Parent(p + [c]) == p;
  }

  lemma NewNode(t: Call, reg: Registry, e: Entry, node: CallNode, empty: seq<CallNode?>)
    requires Closed(reg) && e.traceAddress != [] && e.traceAddress !in reg && Describes(e, t)
    requires |empty| == e.subtraces && forall c :: 0 <= c < |empty| ==> empty[c] == null
    ensures NodeAt(t, reg[e.traceAddress := node], e.traceAddress, Convert(e.action), empty)
  {
    var p := e.traceAddress;
    var reg' := reg[p := node];
    forall c: nat ensures p + [c] !in reg' { ChildUnregistered(reg, p, c); }
  }

  lemma CallerNode(t: Call, reg: Registry, p: Path, node: CallNode, payload: CallData, slots: seq<CallNode?>)
    requires p != [] && p !in reg && NodeAt(t, reg, Parent(p), payload, slots) && p[|p| - 1] < |slots|
    ensures NodeAt(t, reg[p := node], Parent(p), payload, slots[p[|p| - 1] := node])
  {
    var q, last := Parent(p), p[|p| - 1];
    assert p == q + [last];
    forall c: nat | c < |slots| && q + [c] == p ensures c == last { assert (q + [c])[|q|] == p[|q|]; }
  }

  lemma OtherNode(t: Call, reg: Registry, p: Path, node: CallNode, q: Path, payload: CallData, slots: seq<CallNode?>)
    requires p != [] && q != Parent(p) && NodeAt(t, reg, q, payload, slots)
    ensures NodeAt(t, reg[p := node], q, payload, slots)
  {
    forall c: nat ensures q + [c] != p { assert Parent(q + [c]) == q; }
  }

  /** Filling the slot of a new node keeps the registry linked. */
  lemma SlotFilled(t: Call, reg: Registry, payloads: map<Path, CallData>, slots: map<Path, seq<CallNode?>>, p: Path,
                   e: Entry, node: CallNode, empty: seq<CallNode?>)
    requires Consistent(t, reg, payloads, slots) && Closed(reg)
    requires p != [] && p !in reg && Parent(p) in reg && e.traceAddress == p && Describes(e, t)
    requires node !in reg.Values && |empty| == e.subtraces && forall c :: 0 <= c < |empty| ==> empty[c] == null
    requires p[|p| - 1] < |slots[Parent(p)]|
    ensures Consistent(t, reg[p := node], payloads[p := Convert(e.action)],
                       slots[Parent(p) := slots[Parent(p)][p[|p| - 1] := node]][p := empty])
  {
    var reg', par := reg[p := node], Parent(p);
    var payloads', slots' := payloads[p := Convert(e.action)], slots[par := slots[par][p[|p| - 1] := node]][p := empty];
    forall q | q in reg' ensures NodeAt(t, reg', q, payloads'[q], slots'[q]) {
      if q == p {
        NewNode(t, reg, e, node, empty);
      } else if q == par {
        CallerNode(t, reg, p, node, payloads[q], slots[q]);
      } else {
        OtherNode(t, reg, p, node, q, payloads[q], slots[q]);
      }
    }
  }

  /** The first `n` traces have been turned into nodes. */
  ghost predicate Built(t: Call, es: seq<Entry>, n: nat, reg: Registry)
    requires n <= |es|
    reads reg.Values
  {
    Linked(t, reg) && Closed(reg) && forall p :: p in reg <==> Listed(es, n, p)
  }

  lemma ListedMore(es: seq<Entry>, n: nat, p: Path)
    requires n < |es|
    ensures Listed(es, n + 1, p) <==> Listed(es, n, p) || es[n].traceAddress == p
  {}

  /** `e` comes next: not listed yet, but its caller is. */
  ghost predicate NextEntry(t: Call, es: seq<Entry>, n: nat, e: Entry) {
    && n < |es| && e == es[n] && Describes(e, t)
    && e.traceAddress != [] && !Listed(es, n, e.traceAddress) && Listed(es, n, Parent(e.traceAddress))
  }

  ghost predicate InOrder(t: Call, es: seq<Entry>) {
    forall n {:trigger NextEntry(t, es, n, es[n])} :: 0 < n < |es| ==> NextEntry(t, es, n, es[n])
  }

  lemma Ordered(t: Call, es: seq<Entry>)
    requires Flattening(t, es)
    ensures InOrder(t, es)
  {
    forall n | 0 < n < |es| ensures NextEntry(t, es, n, es[n]) {
      assert ParentBefore(es, n) && es[n] in es;
    }
  }

  ghost predicate Distinct(reg: Registry) { forall p, q :: p in reg && q in reg && p != q ==> reg[p] != reg[q] }

  /** Puts a new node into a slot of a registered one. */
  method FillSlot(cur: CallNode, slot: nat, node: CallNode, ghost reg: Registry, ghost p: Path)
    requires p != [] && p !in reg && Parent(p) in reg && cur == reg[Parent(p)] && Distinct(reg)
    requires node !in reg.Values && slot < |cur.calls|
    modifies cur
    ensures Payloads(reg[p := node]) == old(Payloads(reg))[p := node.payload]
    ensures Slots(reg[p := node]) == old(Slots(reg))[Parent(p) := old(cur.calls)[slot := node]][p := node.calls]
    ensures node.payload == old(node.payload) && node.calls == old(node.calls)
  {
    cur.calls := cur.calls[slot := node];
  }

  lemma NextBuilt(t: Call, es: seq<Entry>, n: nat, reg: Registry, p: Path, node: CallNode)
    requires n < |es| && p == es[n].traceAddress && p != [] && Parent(p) in reg && Closed(reg)
    requires (forall q :: q in reg <==> Listed(es, n, q)) && Linked(t, reg[p := node])
    ensures Built(t, es, n + 1, reg[p := node])
  {
    var reg' := reg[p := node];
    forall q ensures q in reg' <==> Listed(es, n + 1, q) { ListedMore(es, n, q); }
  }

  /** Links a new node to its caller. */
  method Link(ghost t: Call, ghost es: seq<Entry>, ghost n: nat, e: Entry, cur: CallNode, node: CallNode,
              ghost reg: Registry)
    requires NextEntry(t, es, n, e) && Built(t, es, n, reg)
    requires cur == reg[Parent(e.traceAddress)]
    requires node !in reg.Values && node.payload == Convert(e.action) && |node.calls| == e.subtraces
    requires forall i :: 0 <= i < |node.calls| ==> node.calls[i] == null
    modifies cur
    ensures Built(t, es, n + 1, reg[e.traceAddress := node])
  {
    var path := e.traceAddress;
    AtParent(t, path);
    NodeIs(t, reg, Parent(path));
    SlotFilled(t, reg, Payloads(reg), Slots(reg), path, e, node, node.calls);
    FillSlot(cur, path[|path| - 1], node, reg, path);
    NextBuilt(t, es, n, reg, path, node);
  }

  /** The next trace: a node for it, put into its caller's slot. */
  method AddEntry(ghost t: Call, ghost es: seq<Entry>, ghost n: nat, e: Entry, root: CallNode, ghost reg: Registry)
    returns (node: CallNode)
    requires NextEntry(t, es, n, e) && Built(t, es, n, reg) && root == reg[[]]
    modifies reg.Values
    ensures Built(t, es, n + 1, reg[e.traceAddress := node]) && fresh(node)
  {
    var path := e.traceAddress;
    node := new CallNode(e);
    assert node !in reg.Values && Built(t, es, n, reg);
    var cur := Walk(t, root, path[..|path| - 1], reg);
    Link(t, es, n, e, cur, node, reg);
  }

  lemma ValuesGrow(reg: Registry, p: Path, node: CallNode)
    ensures reg[p := node].Values <= reg.Values + {node}
  {}

  ghost predicate Progress(t: Call, es: seq<Entry>, n: nat, root: CallNode, reg: Registry, nodes: set<CallNode>)
    requires n <= |es|
    reads nodes
  {
    reg.Values <= nodes && Built(t, es, n, reg) && root == reg[[]]
  }

  method First(ghost t: Call, ghost es: seq<Entry>, e: Entry) returns (root: CallNode)
    requires Flattening(t, es) && e == es[0]
    ensures Progress(t, es, 1, root, map[[] := root], {root}) && fresh(root)
  {
    root := new CallNode(e);
    RootRegistered(t, es, root);
  }

  method NextTrace(ghost t: Call, ghost es: seq<Entry>, ghost n: nat, e: Entry, root: CallNode, ghost reg: Registry,
                   ghost nodes: set<CallNode>)
    returns (ghost reg': Registry, ghost nodes': set<CallNode>)
    requires InOrder(t, es) && 0 < n < |es| && e == es[n] && Progress(t, es, n, root, reg, nodes)
    modifies nodes
    ensures Progress(t, es, n + 1, root, reg', nodes') && fresh(nodes' - nodes)
  {
    assert NextEntry(t, es, n, es[n]);
    var node := AddEntry(t, es, n, e, root, reg);
    ValuesGrow(reg, e.traceAddress, node);
    reg', nodes' := reg[e.traceAddress := node], nodes + {node};
  }

  lemma WholeTree(t: Call, es: seq<Entry>, root: CallNode, reg: Registry, nodes: set<CallNode>)
    requires Flattening(t, es) && Progress(t, es, |es|, root, reg, nodes)
    ensures Represents(root, t, reg.Values) && reg.Values <= nodes
  {
    RegistryRepresents(t, reg, [], t);
  }

  /** The loop over the traces after the first. */
  method AddAll(ghost t: Call, es: seq<Entry>, root: CallNode) returns (ghost reg: Registry, ghost made: set<CallNode>)
    requires es != [] && InOrder(t, es) && Progress(t, es, 1, root, map[[] := root], {root})
    modifies root
    ensures Progress(t, es, |es|, root, reg, made) && fresh(made - {root})
  {
    reg, made := map[[] := root], {root};
    var i := 1;
    while i < |es|
      invariant 1 <= i <= |es| && Progress(t, es, i, root, reg, made)
      invariant fresh(made - {root})
    {
      reg, made := NextTrace(t, es, i, es[i], root, reg, made);
      i := i + 1;
    }
  }

  /** Main result. For every call tree and every caller-before-callee listing of its traces, the
      rebuilt object tree is the original, slot for slot; no step leaves the bounds or meets an empty slot. */
  method ConvertToTenderlyTrace(ghost t: Call, old_: seq<Entry>) returns (root: CallNode, ghost nodes: set<CallNode>)
    requires Flattening(t, old_)
    ensures Represents(root, t, nodes) && fresh(nodes)
  {
    root := First(t, old_, old_[0]);
    Ordered(t, old_);
    ghost var reg, made := AddAll(t, old_, root);
    WholeTree(t, old_, root, reg, made);
    nodes := reg.Values;
  }

  lemma RootRegistered(t: Call, es: seq<Entry>, root: CallNode)
    requires Flattening(t, es) && root.payload == Convert(es[0].action) && |root.calls| == es[0].subtraces
    requires forall i :: 0 <= i < |root.calls| ==> root.calls[i] == null
    ensures Built(t, es, 1, map[[] := root])
  {
    var reg: Registry := map[[] := root];
    assert es[0] in es && Describes(es[0], t);
    assert NodeAt(t, reg, [], root.payload, root.calls);
    assert Listed(es, 1, []);
  }
}
