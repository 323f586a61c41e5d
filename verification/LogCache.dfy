/** The cache of per-block transaction logs, with eviction of old blocks. */
module LogCache {

  import opened Wrappers
  import opened TxLogs

  ghost predicate Sorted(nums: seq<int>) { forall i, j :: 0 <= i <= j < |nums| ==> nums[i] <= nums[j] }

  ghost predicate Distinct(nums: seq<int>) { forall i, j :: 0 <= i < j < |nums| ==> nums[i] < nums[j] }

  /** Smallest index whose element is at least `x`, by bisection. */
  method SearchInts(nums: seq<int>, x: int) returns (ind: nat)
    requires Sorted(nums)
    ensures ind <= |nums|
    ensures forall i :: 0 <= i < ind ==> nums[i] < x
    ensures forall i :: ind <= i < |nums| ==> nums[i] >= x
  {
    var lo, hi := 0, |nums|;
    while lo < hi
      invariant 0 <= lo <= hi <= |nums|
      invariant forall i :: 0 <= i < lo ==> nums[i] < x
      invariant forall i :: hi <= i < |nums| ==> nums[i] >= x
    {
      var mid := (lo + hi) / 2;
      if nums[mid] < x { lo := mid + 1; } else { hi := mid; }
    }
    ind := lo;
  }

  function Inserted(nums: seq<int>, ind: nat, x: int): seq<int>
    requires ind <= |nums|
  {
    nums[..ind] + [x] + nums[ind..]
  }

  lemma InsertedSorted(nums: seq<int>, ind: nat, x: int)
    requires ind <= |nums| && Sorted(nums)
    requires (forall i :: 0 <= i < ind ==> nums[i] < x) && forall i :: ind <= i < |nums| ==> nums[i] >= x
    ensures Sorted(Inserted(nums, ind, x)) && (x !in nums && Distinct(nums) ==> Distinct(Inserted(nums, ind, x)))
    ensures forall b :: b in Inserted(nums, ind, x) <==> b in nums || b == x
  {
    var r := Inserted(nums, ind, x);
    assert forall i :: 0 <= i < |r| ==> r[i] == if i < ind then nums[i] else if i == ind then x else nums[i - 1];
    forall b ensures b in r <==> b in nums || b == x {
      assert r[ind] == x;
      assert nums == nums[..ind] + nums[ind..];
    }
  }

  /** A block is always entered: the element before the insertion point is smaller, never equal. */
  method InsertInSlice(nums: seq<int>, block: int) returns (r: seq<int>)
    requires Sorted(nums)
    ensures Sorted(r) && (block !in nums && Distinct(nums) ==> Distinct(r))
    ensures |r| == |nums| + 1 && forall b :: b in r <==> b in nums || b == block
  {
    var ind := SearchInts(nums, block);
    r := nums;
    if !(ind != 0 && nums[ind - 1] == block) {
      InsertedSorted(nums, ind, block);
      r := nums[..ind] + [block] + nums[ind..];
    }
  }

  type BlockStore = map<int, LogStore>

  /** The entries at or above a block. */
  ghost function From(store: BlockStore, till: int): BlockStore { map b | b in store && b >= till :: store[b] }

  /** Removes the blocks below `till`, from the list and from the store. */
  method DeleteInSlice(nums: seq<int>, till: int, store: BlockStore) returns (nums': seq<int>, store': BlockStore)
    requires Sorted(nums) && forall b :: b in store <==> b in nums
    ensures Sorted(nums') && (Distinct(nums) ==> Distinct(nums'))
    ensures store' == From(store, till) && forall b :: b in store' <==> b in nums'
  {
    var ind := SearchInts(nums, till);
    store' := store;
    for i := 0 to ind
      invariant store' == store - (set j | 0 <= j < i :: nums[j])
    {
      store' := store' - {nums[i]};
    }
    nums' := nums[ind..];
    SuffixKept(nums, ind, till, store);
  }

  lemma SuffixKept(nums: seq<int>, ind: nat, till: int, store: BlockStore)
    requires ind <= |nums| && forall b :: b in store <==> b in nums
    requires (forall i :: 0 <= i < ind ==> nums[i] < till) && forall i :: ind <= i < |nums| ==> nums[i] >= till
    ensures store - (set j | 0 <= j < ind :: nums[j]) == From(store, till)
    ensures forall b :: b in From(store, till) <==> b in nums[ind..]
  {
    var rest := store - (set j | 0 <= j < ind :: nums[j]);
    forall b ensures b in rest <==> b in From(store, till) {
      if b in store { var i :| 0 <= i < |nums| && nums[i] == b; }
    }
    forall b ensures b in From(store, till) <==> b in nums[ind..] {
      if b in From(store, till) {
        var i :| 0 <= i < |nums| && nums[i] == b;
        assert nums[ind..][i - ind] == b;
      }
    }
  }

  function Lookup(store: LogStore, h: nat): Option<seq<Log>> { if h in store then Some(store[h]) else None }

  class TxLogger {
    /** The node: the logs of each block, which never change. */
    const chain: int -> seq<TxLog>
    const storeLen: int
    var store: BlockStore
    var nums: seq<int>

    constructor (chain: int -> seq<TxLog>, storeLen: int)
      ensures Valid() && store == map[] && Distinct(nums) && this.chain == chain && this.storeLen == storeLen
    {
      this.chain, this.storeLen, store, nums := chain, storeLen, map[], [];
    }

    /** The list is non-decreasing and names exactly the cached blocks, and each of them holds what a
        fetch would give. */
    ghost predicate Valid()
      reads this
    {
      && Sorted(nums) && (forall b :: b in store <==> b in nums)
      && forall b :: b in store ==> store[b] == Fetched(chain(b))
    }

    /** The block is cached, together with what was cached before. */
    method Load(blockNum: int, txHash: nat)
      requires Valid()
      modifies this
      ensures Valid() && store == old(store)[blockNum := Fetched(chain(blockNum))]
      ensures txHash in Fetched(chain(blockNum)) && old(Distinct(nums)) ==> Distinct(nums)
    {
      if blockNum !in store || txHash !in store[blockNum] {
        nums := InsertInSlice(nums, blockNum);
        var fetched := FetchLogs(chain(blockNum));
        store := store[blockNum := fetched];
      }
    }

    /** What a fresh fetch of the block says about the transaction; the original stops the program
        when that is nothing. */
    method GetLogs(blockNum: int, txHash: nat) returns (r: Option<seq<Log>>)
      requires Valid()
      modifies this
      ensures Valid()
      ensures r == Lookup(Fetched(chain(blockNum)), txHash)
      ensures store == From(old(store)[blockNum := Fetched(chain(blockNum))], blockNum - storeLen)
      ensures r.Some? && old(Distinct(nums)) ==> Distinct(nums)
    {
      Load(blockNum, txHash);
      r := Lookup(store[blockNum], txHash);
      nums, store := DeleteInSlice(nums, blockNum - storeLen, store);
    }

    /** Any sequence of requests: each is answered as by a fresh fetch. */
    method Serve(requests: seq<(int, nat)>) returns (answers: seq<Option<seq<Log>>>)
      requires Valid()
      modifies this
      ensures Valid() && |answers| == |requests|
      ensures forall i :: 0 <= i < |requests| ==> Answers(chain, requests[i], answers[i])
    {
      answers := [];
      for i := 0 to |requests|
        invariant Valid() && |answers| == i
        invariant forall j :: 0 <= j < i ==> Answers(chain, requests[j], answers[j])
      {
        var r := GetLogs(requests[i].0, requests[i].1);
        FreshAnswers(chain, requests[i], r);
        answers := answers + [r];
      }
    }
  }

  /** Stated without the cache: for contiguous logs the answer is the full log list of a transaction that
      holds an ExecuteOrder or a v2 close, and there is none for any other transaction. */
  ghost predicate Answers(chain: int -> seq<TxLog>, request: (int, nat), r: Option<seq<Log>>) {
    var logs, h := chain(request.0), request.1;
    && r == Lookup(Fetched(logs), h)
    && (Contiguous(logs) ==> r == if HasValid(logs, h) then Some(Full(logs, |logs|, h)) else None)
  }

  lemma FreshAnswers(chain: int -> seq<TxLog>, request: (int, nat), r: Option<seq<Log>>)
    requires r == Lookup(Fetched(chain(request.0)), request.1)
    ensures Answers(chain, request, r)
  {
    if Contiguous(chain(request.0)) { ContiguousExact(chain(request.0)); }
  }
}
