/** From the flat traces of a transaction to its adapter calls: the tree that is searched is the tree
    that was rebuilt. */
module TraceSearch {
  import opened Wrappers
  import opened Calls
  import opened CallTree
  import opened ExecuteCalls

  /** Reads the tree off the objects. */
  method Read(n: CallNode?, ghost t: Call, ghost nodes: set<CallNode>) returns (c: Call)
    requires Represents(n, t, nodes)
    ensures c == t
    decreases t
  {
    var calls: seq<Call> := [];
    for i := 0 to |n.calls|
      invariant |calls| == i && forall j :: 0 <= j < i ==> calls[j] == t.calls[j]
    {
      var child := Read(n.calls[i], t.calls[i], nodes);
      calls := calls + [child];
    }
    c := Call(n.payload, calls);
    assert calls == t.calls;
  }

  /** Main result. For every call tree and every caller-before-callee listing of its traces, rebuilding the
      tree and searching it resolves exactly the outermost executeOrder calls of the original, in preorder,
      the i-th against the i-th parameter. */
  method FindInTraces(ghost t: Call, traces: seq<Entry>, params: seq<ExecuteParams>, manager: nat)
    returns (calls: seq<Option<string>>)
    requires Flattening(t, traces)
    ensures Resolves(t, Found(t, manager), params, 0, calls)
    ensures Ascending(Found(t, manager)) && forall p :: p in Found(t, manager) <==> Outermost(t, manager, p)
  {
    ghost var nodes;
    var root;
    root, nodes := ConvertToTenderlyTrace(t, traces);
    var call := Read(root, t, nodes);
    var filter := new ExecuteFilter(params, manager);
    calls := filter.GetExecuteCalls(call);
    FoundExact(t, manager);
  }
}
