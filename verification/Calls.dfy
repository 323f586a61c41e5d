/** Calls of a transaction as a tree, shared by the modules that rebuild and search it. */
module Calls {
  import opened Wrappers

  /** The way from the root to a node: the index of the child to take at each step. */
  type Path = seq<nat>

  datatype CallerOp = CALL | DELEGATECALL | STATICCALL | JUMP | OtherOp

  /** What is known of a call; static calls have no value. */
  datatype CallData = CallData(from: nat, to: nat, callerOp: CallerOp, input: string, value: Option<int>)

  /** A call with the calls made from it. */
  datatype Call = Call(data: CallData, calls: seq<Call>)

  /** The subtree at an address. */
  function At(t: Call, p: Path): Option<Call>
    decreases |p|
  {
    if p == [] then Some(t) else if p[0] < |t.calls| then At(t.calls[p[0]], p[1..]) else None
  }

  lemma AtChild(t: Call, k: nat, p: Path)
    ensures At(t, [k] + p) == if k < |t.calls| then At(t.calls[k], p) else None
  {
    assert ([k] + p)[1..] == p;
  }

  lemma {:induction false} AtStep(t: Call, p: Path, c: nat)
    ensures At(t, p + [c]) == if At(t, p).Some? &&
            c < |At(t, p).value.calls| then Some(At(t, p).value.calls[c]) else None
    decreases |p|
  {
    if p == [] {
      assert [c][1..] == [] && [] + [c] == [c];
    } else {
      assert (p + [c])[0] == p[0] && (p + [c])[1..] == p[1..] + [c];
      if p[0] < |t.calls| { AtStep(t.calls[p[0]], p[1..], c); }
    }
  }
}
