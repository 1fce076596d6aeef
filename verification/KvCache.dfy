/**
 The sliding-window cache manager that gives every request one block for as long as it lives.

 The block pool is the list of free blocks; taking from an empty pool is get_new_blocks's error. An
 operation whose assertion fails changes nothing.
 */
module KvCache {
  import opened Options

  type Request = string
  type Block = nat

  datatype Error = PoolExhausted | AssertionFailed

  datatype State = State(free: seq<Block>, owned: map<Request, seq<Block>>, cached: map<Request, int>)

  datatype Op =
    | AddLocal(req: Request, hits: seq<Block>)    // add_local_computed_blocks
    | AddExternal(req: Request, tokens: int)      // allocate_external_computed_blocks
    | Grow(req: Request)                          // allocate_new_blocks, for any number of tokens
    | Free(req: Request)

  /** req_to_blocks[req], a defaultdict(list). */
  function Owned(s: State, r: Request): seq<Block> { if r in s.owned then s.owned[r] else [] }

  /** get_num_blocks_to_allocate */
  function Predicted(s: State, r: Request): nat { if Owned(s, r) != [] then 0 else 1 }

  /** get_new_blocks(1), given to r. */
  function TakeOne(s: State, r: Request): (State, Result<seq<Block>, Error>)
  {
    if s.free == [] then (s, Err(PoolExhausted))
    else (s.(free := s.free[1..], owned := s.owned[r := Owned(s, r) + [s.free[0]]]), Ok([s.free[0]]))
  }

  function Step(s: State, op: Op): (State, Result<seq<Block>, Error>)
  {
    match op
    case AddLocal(r, hits) =>
      if hits != [] || Owned(s, r) != [] then (s, Err(AssertionFailed)) else (s.(cached := s.cached[r := 0]), Ok([]))
    case AddExternal(r, tokens) =>
      if tokens <= 0 then (s, Ok([])) else if Owned(s, r) != [] then (s, Err(AssertionFailed)) else TakeOne(s, r)
    case Grow(r) =>
      if Owned(s, r) != [] then (s, Ok([])) else TakeOne(s, r)
    case Free(r) => (State(s.free + Owned(s, r), s.owned - {r}, s.cached - {r}), Ok([]))
  }

  /** The request gains these blocks, which leave the pool; nobody else's blocks change. */
  ghost predicate Gains(s: State, r: Request, blocks: seq<Block>, s': State)
  {
    && Owned(s', r) == Owned(s, r) + blocks && multiset(s.free) == multiset(s'.free) + multiset(blocks)
    && forall q | q != r :: Owned(s', q) == Owned(s, q)
  }

  /** A request that owns no block is given one, unless the pool has none. */
  ghost predicate GivenOne(s: State, r: Request, s': State, result: Result<seq<Block>, Error>)
  {
    && s'.cached == s.cached
    && (s.free == [] ==> s' == s && result == Err(PoolExhausted))
    && (s.free != [] ==>
          result.Ok? && |result.value| == 1 && result.value[0] in s.free && Gains(s, r, result.value, s'))
  }

  /** What each operation does, by what the request owns. */
  ghost predicate Does(s: State, op: Op, s': State, result: Result<seq<Block>, Error>)
  {
    var none := Owned(s, op.req) == [];
    match op
    case AddLocal(r, hits) =>
      && s'.free == s.free && s'.owned == s.owned && (forall q | q != r :: q in s'.cached <==> q in s.cached)
      && (forall q | q != r && q in s.cached :: s'.cached[q] == s.cached[q])
      && (if hits == [] && none then result == Ok([]) && r in s'.cached && s'.cached[r] == 0
          else s' == s && result == Err(AssertionFailed))
    case AddExternal(r, tokens) =>
      && (tokens <= 0 ==> s' == s && result == Ok([]))
      && (tokens > 0 && !none ==> s' == s && result == Err(AssertionFailed))
      && (tokens > 0 && none ==> GivenOne(s, r, s', result))
    case Grow(r) =>
      && (!none ==> s' == s && result == Ok([]))
      && (none ==> GivenOne(s, r, s', result))
    case Free(r) =>
      && result == Ok([]) && Owned(s', r) == [] && r !in s'.cached
      && multiset(s'.free) == multiset(s.free) + multiset(Owned(s, r))
      && forall q | q != r :: Owned(s', q) == Owned(s, q) && (q in s'.cached <==> q in s.cached)
  }

  lemma StepDoes(s: State, op: Op)
    ensures Does(s, op, Step(s, op).0, Step(s, op).1)
  {
    if s.free != [] {
      assert s.free == [s.free[0]] + s.free[1..];
      assert multiset(s.free) == multiset([s.free[0]]) + multiset(s.free[1..]);
    }
  }

  class SlidingWindowManager {
    var freeBlocks: seq<Block>
    var reqToBlocks: map<Request, seq<Block>>
    var numCachedBlock: map<Request, int>

    function Current(): State
      reads this
    {
      State(freeBlocks, reqToBlocks, numCachedBlock)
    }

    constructor (blocks: seq<Block>)
      ensures Current() == State(blocks, map[], map[])
    {
      freeBlocks, reqToBlocks, numCachedBlock := blocks, map[], map[];
    }

    method GetNewBlock() returns (r: Result<seq<Block>, Error>)
      modifies this`freeBlocks
      ensures old(freeBlocks) == [] ==> r == Err(PoolExhausted) && freeBlocks == []
      ensures old(freeBlocks) != [] ==> r == Ok([old(freeBlocks)[0]]) && freeBlocks == old(freeBlocks)[1..]
    {
      if freeBlocks == [] {
        return Err(PoolExhausted);
      }
      r := Ok([freeBlocks[0]]);
      freeBlocks := freeBlocks[1..];
    }

    method AllocateNewBlocks(req: Request) returns (r: Result<seq<Block>, Error>)
      modifies this
      ensures (Current(), r) == Step(old(Current()), Grow(req))
      ensures Does(old(Current()), Grow(req), Current(), r)
      ensures r.Ok? ==> |r.value| == Predicted(old(Current()), req) && Predicted(Current(), req) == 0
      ensures r.Err? <==> |old(freeBlocks)| < Predicted(old(Current()), req)
    {
      StepDoes(Current(), Grow(req));
      if Owned(Current(), req) != [] {
        return Ok([]);
      }
      r := GetNewBlock();
      if r.Ok? {
        reqToBlocks := reqToBlocks[req := Owned(Current(), req) + r.value];
      }
    }

    method AllocateExternalComputedBlocks(req: Request, tokens: int) returns (r: Result<seq<Block>, Error>)
      modifies this
      ensures (Current(), r) == Step(old(Current()), AddExternal(req, tokens))
      ensures Does(old(Current()), AddExternal(req, tokens), Current(), r)
      ensures r.Ok? && tokens > 0 ==> |r.value| == Predicted(old(Current()), req) == 1 && Predicted(Current(), req) == 0
    {
      StepDoes(Current(), AddExternal(req, tokens));
      if tokens <= 0 {
        return Ok([]);
      }
      if Owned(Current(), req) != [] {
        return Err(AssertionFailed);
      }
      r := GetNewBlock();
      if r.Ok? {
        reqToBlocks := reqToBlocks[req := Owned(Current(), req) + r.value];
      }
    }

    method AddLocalComputedBlocks(req: Request, hits: seq<Block>) returns (r: Result<seq<Block>, Error>)
      modifies this`numCachedBlock
      ensures (Current(), r) == Step(old(Current()), AddLocal(req, hits))
      ensures Does(old(Current()), AddLocal(req, hits), Current(), r)
    {
      StepDoes(Current(), AddLocal(req, hits));
      if hits != [] || Owned(Current(), req) != [] {
        return Err(AssertionFailed);
      }
      numCachedBlock := numCachedBlock[req := 0];
      r := Ok([]);
    }

    method FreeRequest(req: Request)
      modifies this
      ensures Current() == Step(old(Current()), Free(req)).0
      ensures Does(old(Current()), Free(req), Current(), Ok([]))
    {
      StepDoes(Current(), Free(req));
      freeBlocks := freeBlocks + Owned(Current(), req);
      reqToBlocks := reqToBlocks - {req};
      numCachedBlock := numCachedBlock - {req};
    }
  }

  /******* Every reachable state *******/

  function Holders(s: State): set<Request> { set r | r in s.owned && s.owned[r] != [] }

  ghost predicate Distinct(bs: seq<Block>) { forall i, j | 0 <= i < j < |bs| :: bs[i] != bs[j] }

  /** One block per request, none shared, none both owned and free, and none lost. */
  ghost predicate Inv(s: State, pool: set<Block>)
  {
    && Distinct(s.free)
    && (forall r | r in s.owned :: |s.owned[r]| <= 1)
    && (forall r | r in Holders(s) :: s.owned[r][0] !in s.free && s.owned[r][0] in pool)
    && (forall r, q | r in Holders(s) && q in Holders(s) && r != q :: s.owned[r][0] != s.owned[q][0])
    && (forall b | b in s.free :: b in pool)
    && |s.free| + |Holders(s)| == |pool|
  }

  lemma HoldersAfterTaking(s: State, r: Request)
    requires s.free != [] && Owned(s, r) == []
    ensures Holders(TakeOne(s, r).0) == Holders(s) + {r} && r !in Holders(s)
  {
  }

  lemma HoldersAfterFree(s: State, r: Request)
    ensures Holders(Step(s, Free(r)).0) == Holders(s) - {r}
    ensures r in Holders(s) <==> Owned(s, r) != []
  {
  }

  lemma TakingKeepsInv(s: State, r: Request, pool: set<Block>)
    requires Inv(s, pool) && Owned(s, r) == []
    ensures Inv(TakeOne(s, r).0, pool)
  {
    if s.free != [] {
      HoldersAfterTaking(s, r);
      var s' := TakeOne(s, r).0;
      assert s'.owned[r] == [s.free[0]];
      assert forall b :: b in s'.free ==> b in s.free;
    }
  }

  lemma FreeingKeepsInv(s: State, r: Request, pool: set<Block>)
    requires Inv(s, pool)
    ensures Inv(Step(s, Free(r)).0, pool)
  {
    HoldersAfterFree(s, r);
    var s' := Step(s, Free(r)).0;
    if r in Holders(s) {
      assert s'.free == s.free + [s.owned[r][0]];
    } else {
      assert s'.free == s.free;
    }
  }

  lemma StepKeepsInv(s: State, op: Op, pool: set<Block>)
    requires Inv(s, pool)
    ensures Inv(Step(s, op).0, pool)
  {
    match op
    case AddLocal(r, hits) => assert Holders(Step(s, op).0) == Holders(s);
    case AddExternal(r, tokens) => if Owned(s, r) == [] { TakingKeepsInv(s, r, pool); }
    case Grow(r) => if Owned(s, r) == [] { TakingKeepsInv(s, r, pool); }
    case Free(r) => FreeingKeepsInv(s, r, pool);
  }

  function Run(s: State, ops: seq<Op>): State
    decreases |ops|
  {
    if ops == [] then s else Run(Step(s, ops[0]).0, ops[1..])
  }

  /** Over any operations: at most one block each, disjoint, and free plus owned is the pool. */
  lemma {:induction false} RunKeepsInv(s: State, ops: seq<Op>, pool: set<Block>)
    requires Inv(s, pool)
    ensures Inv(Run(s, ops), pool)
    decreases |ops|
  {
    if ops != [] {
      StepKeepsInv(s, ops[0], pool);
      RunKeepsInv(Step(s, ops[0]).0, ops[1..], pool);
    }
  }

  function SetOf(blocks: seq<Block>): set<Block> { set b | b in blocks }

  lemma {:induction false} DistinctCount(blocks: seq<Block>)
    requires Distinct(blocks)
    ensures |SetOf(blocks)| == |blocks|
  {
    if blocks != [] {
      DistinctCount(blocks[1..]);
      assert blocks == [blocks[0]] + blocks[1..];
      assert SetOf(blocks) == {blocks[0]} + SetOf(blocks[1..]);
      assert blocks[0] !in blocks[1..];
    } else {
      assert SetOf(blocks) == {};
    }
  }

  /** A fresh manager over distinct blocks owns none and has them all free. */
  lemma StartsWhole(blocks: seq<Block>)
    requires Distinct(blocks)
    ensures Inv(State(blocks, map[], map[]), SetOf(blocks))
  {
    assert Holders(State(blocks, map[], map[])) == {};
    DistinctCount(blocks);
  }

  /** Once a request has its block it keeps it, and needs no other, through everything but its own release. */
  lemma {:induction false} AdmittedNeverNeedsMore(s: State, ops: seq<Op>, r: Request)
    requires Predicted(s, r) == 0 && forall i | 0 <= i < |ops| :: ops[i] != Free(r)
    ensures Owned(Run(s, ops), r) == Owned(s, r) && Predicted(Run(s, ops), r) == 0
    ensures Step(Run(s, ops), Grow(r)) == (Run(s, ops), Ok([]))
    decreases |ops|
  {
    if ops != [] {
      var s' := Step(s, ops[0]).0;
      assert ops[0] != Free(r);
      assert Owned(s', r) == Owned(s, r);
      AdmittedNeverNeedsMore(s', ops[1..], r);
    }
  }
}
