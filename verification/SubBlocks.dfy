/**
 Sub-block prefix caching: chained hashes of sub-blocks, the index from hashes to the blocks that hold them, the partial
 match it answers with, and the events that tell an outside reader what is held.

 A hash is the chain it was made from, so hashes never collide. An index is a pair of maps, but the lists per block
 determine the other map; the specification works on the lists.
 */
module SubBlocks {
  import opened Arith
  import opened Options

  type Block = nat
  type Token = int
  type Extra = Option<string>

  /** What one hash covers on its own: the tokens of a sub-block and its extra keys. */
  datatype Content = Content(tokens: seq<Token>, extra: Extra)

  /** hash_block_tokens: the parent's hash with the next sub-block. */
  datatype Hash = Hash(parent: Option<Hash>, content: Content)

  type Lists = map<Block, seq<Hash>>

  /******* Chained hashes *******/

  /** How many sub-blocks precede the one hashed. */
  function Place(h: Hash): nat
  {
    if h.parent.None? then 0 else 1 + Place(h.parent.value)
  }

  /** Everything a hash stands for, from the first token on. */
  function Contents(h: Hash): (r: seq<Content>)
    ensures |r| == Place(h) + 1
  {
    (if h.parent.None? then [] else Contents(h.parent.value)) + [h.content]
  }

  function Last(hs: seq<Hash>): Option<Hash> { if hs == [] then None else Some(hs[|hs| - 1]) }

  /** The hashes of a run of sub-blocks whose predecessor hashes to `parent`. */
  function Chain(parent: Option<Hash>, cs: seq<Content>): (r: seq<Hash>)
    ensures |r| == |cs|
    decreases cs
  {
    if cs == [] then [] else
      var h := Hash(parent, cs[0]);
      [h] + Chain(Some(h), cs[1..])
  }

  /** The full sub-blocks of a token list from token `start` on. */
  function Cut(size: nat, extra: nat -> Extra, tokens: seq<Token>, start: nat): seq<Content>
    requires size > 0
    decreases |tokens| - start
  {
    if start + size > |tokens| then []
    else [Content(tokens[start..start + size], extra(start))] + Cut(size, extra, tokens, start + size)
  }

  /** The hash a chain's continuation has as its parent. */
  function ChainEnd(parent: Option<Hash>, cs: seq<Content>): Option<Hash>
    decreases cs
  {
    if cs == [] then parent else ChainEnd(Some(Hash(parent, cs[0])), cs[1..])
  }

  lemma {:induction false} ChainEndIsLast(parent: Option<Hash>, cs: seq<Content>)
    ensures ChainEnd(parent, cs) == if cs == [] then parent else Last(Chain(parent, cs))
    decreases cs
  {
    if cs != [] { ChainEndIsLast(Some(Hash(parent, cs[0])), cs[1..]); }
  }

  lemma {:induction false} ChainAppends(parent: Option<Hash>, a: seq<Content>, b: seq<Content>)
    ensures Chain(parent, a + b) == Chain(parent, a) + Chain(ChainEnd(parent, a), b)
    decreases a
  {
    if a == [] {
      assert a + b == b;
    } else {
      assert (a + b)[0] == a[0] && (a + b)[1..] == a[1..] + b;
      ChainAppends(Some(Hash(parent, a[0])), a[1..], b);
    }
  }

  /** Where the sub-blocks cut from token `start` on end. */
  function CutEnd(size: nat, tokens: seq<Token>, start: nat): (r: nat)
    requires size > 0
    decreases |tokens| - start
  {
    if start + size > |tokens| then start else CutEnd(size, tokens, start + size)
  }

  lemma {:induction false} CutEndCounts(size: nat, extra: nat -> Extra, tokens: seq<Token>, start: nat)
    requires size > 0
    ensures CutEnd(size, tokens, start) == start + |Cut(size, extra, tokens, start)| * size
    decreases |tokens| - start
  {
    if start + size <= |tokens| {
      CutEndCounts(size, extra, tokens, start + size);
      MulAssociate(1, 1, |Cut(size, extra, tokens, start + size)|, size);
    }
  }

  /** Sub-block i is the i-th run of `size` tokens, and less than a sub-block is left over. */
  lemma {:induction false} CutAt(size: nat, extra: nat -> Extra, tokens: seq<Token>, start: nat, i: nat)
    requires size > 0 && start <= |tokens|
    ensures var cs := Cut(size, extra, tokens, start);
            && start + |cs| * size <= |tokens| < start + (|cs| + 1) * size
            && (i < |cs| ==> var lo := start + i * size;
                             lo + size <= |tokens| && cs[i] == Content(tokens[lo..lo + size], extra(lo)))
    decreases |tokens| - start
  {
    if start + size <= |tokens| {
      var later := Cut(size, extra, tokens, start + size);
      CutAt(size, extra, tokens, start + size, if i > 0 then i - 1 else 0);
      MulAssociate(1, 1, |later|, size);
      MulAssociate(1, 1, |later| + 1, size);
      if i > 0 { MulAssociate(1, 1, i - 1, size); }
    }
  }

  /** Where a request has grown, its sub-blocks so far stay, and cutting goes on from their end. */
  lemma {:induction false} CutGrows(size: nat, extra: nat -> Extra, tokens: seq<Token>, more: seq<Token>, start: nat)
    requires size > 0
    ensures Cut(size, extra, tokens + more, start)
            == Cut(size, extra, tokens, start) + Cut(size, extra, tokens + more, CutEnd(size, tokens, start))
    decreases |tokens| - start
  {
    if start + size <= |tokens| {
      CutGrows(size, extra, tokens, more, start + size);
      assert (tokens + more)[start..start + size] == tokens[start..start + size];
    }
  }

  /** SubBlockHasher.hash_tokens */
  method HashTokens(size: nat, extra: nat -> Extra, tokens: seq<Token>, parent: Option<Hash>, start: nat)
    returns (hashes: seq<Hash>)
    requires size > 0
    ensures hashes == Chain(parent, Cut(size, extra, tokens, start))
  {
    hashes := [];
    var last, i := parent, start;
    while i + size <= |tokens|
      invariant Chain(parent, Cut(size, extra, tokens, start)) == hashes + Chain(last, Cut(size, extra, tokens, i))
      decreases |tokens| - i
    {
      var h := Hash(last, Content(tokens[i..i + size], extra(i)));
      hashes, last := hashes + [h], Some(h);
      i := i + size;
    }
  }

  /** The hashes kept per request, brought up to date as it grows. */
  class RequestHashes {
    const size: nat
    const extra: nat -> Extra
    var hashes: seq<Hash>

    constructor (size: nat, extra: nat -> Extra)
      requires size > 0
      ensures this.size == size && this.extra == extra && hashes == []
    {
      this.size, this.extra, hashes := size, extra, [];
    }

    /** _get_or_compute_sub_hashes */
    method Refresh(tokens: seq<Token>, ghost known: nat)
      requires size > 0 && known <= |tokens| && hashes == Chain(None, Cut(size, extra, tokens[..known], 0))
      modifies this
      ensures hashes == Chain(None, Cut(size, extra, tokens, 0))
    {
      ghost var before := Cut(size, extra, tokens[..known], 0);
      var start := |hashes| * size;
      CutEndCounts(size, extra, tokens[..known], 0);
      CutGrows(size, extra, tokens[..known], tokens[known..], 0);
      assert tokens[..known] + tokens[known..] == tokens;
      ChainAppends(None, before, Cut(size, extra, tokens, start));
      ChainEndIsLast(None, before);
      var more := HashTokens(size, extra, tokens, Last(hashes), start);
      hashes := hashes + more;
    }
  }

  /******* What a block may hold *******/

  /** Hashes of consecutive sub-blocks, from the start of a block on. */
  ghost predicate InBlock(perBlock: nat, hs: seq<Hash>)
  {
    && |hs| <= perBlock
    && (forall i | 0 <= i < |hs| :: Place(hs[i]) % perBlock == i)
    && (forall i | 0 < i < |hs| :: hs[i].parent == Some(hs[i - 1]))
  }

  /** A slice as Python takes it: what there is of [lo, lo + count). */
  function Slice(hs: seq<Hash>, lo: nat, count: nat): (r: seq<Hash>)
    ensures |r| <= count && (r != [] ==> lo + |r| <= |hs|) && forall i | 0 <= i < |r| :: r[i] == hs[lo + i]
  {
    if lo + count <= |hs| then hs[lo..lo + count] else if lo <= |hs| then hs[lo..] else []
  }

  lemma {:induction false} ChainLink(parent: Option<Hash>, cs: seq<Content>, i: nat)
    requires i < |cs|
    ensures Chain(parent, cs)[i] == Hash(if i == 0 then parent else Some(Chain(parent, cs)[i - 1]), cs[i])
    decreases cs
  {
    if i > 0 { ChainLink(Some(Hash(parent, cs[0])), cs[1..], i - 1); }
  }

  lemma {:induction false} ChainAt(cs: seq<Content>, i: nat)
    requires i < |cs|
    ensures Contents(Chain(None, cs)[i]) == cs[..i + 1]
  {
    hide Chain;
    ChainLink(None, cs, i);
    if i > 0 { ChainAt(cs, i - 1); }
    assert cs[..i + 1] == cs[..i] + [cs[i]];
  }

  /** Every slice the manager indexes is one that a block may hold. */
  lemma SliceFits(perBlock: nat, cs: seq<Content>, k: nat, count: nat)
    requires 0 < perBlock && count <= perBlock
    ensures InBlock(perBlock, Slice(Chain(None, cs), k * perBlock, count))
  {
    hide Chain, Slice, Place;
    var hs, lo := Chain(None, cs), k * perBlock;
    var b := Slice(hs, lo, count);
    forall i | 0 <= i < |b| ensures Place(b[i]) % perBlock == i {
      ChainAt(cs, lo + i);
      assert |Contents(hs[lo + i])| == lo + i + 1;
      IndexUnique(k, perBlock, i);
    }
    forall i | 0 < i < |b| ensures b[i].parent == Some(b[i - 1]) { ChainLink(None, cs, lo + i); }
  }

  /** A hash sits at one place, and what precedes it in a block is settled. */
  lemma {:induction false} SharedPrefix(perBlock: nat, a: seq<Hash>, b: seq<Hash>, i: nat, j: nat)
    requires InBlock(perBlock, a) && InBlock(perBlock, b) && i < |a| && j < |b| && a[i] == b[j]
    ensures i == j && a[..i + 1] == b[..i + 1]
    decreases i
  {
    assert a[..i + 1] == a[..i] + [a[i]];
    assert i == j;
    assert b[..i + 1] == b[..i] + [b[i]];
    if i > 0 {
      assert Some(a[i - 1]) == Some(b[i - 1]);
      SharedPrefix(perBlock, a, b, i - 1, i - 1);
    }
  }

  /******* The index *******/

  ghost predicate Held(lists: Lists, h: Hash) { exists b :: b in lists && h in lists[b] }

  function ListOf(lists: Lists, b: Block): seq<Hash> { if b in lists then lists[b] else [] }

  /** What update leaves a block with: the list it has, lengthened from where that ends. */
  function Extended(e: seq<Hash>, hs: seq<Hash>): seq<Hash>
  {
    if |hs| <= |e| then e else e + hs[|e|..]
  }

  function Updated(lists: Lists, b: Block, hs: seq<Hash>): Lists { lists[b := Extended(ListOf(lists, b), hs)] }

  /** The first hash from i on that no block holds. */
  ghost function FirstFresh(lists: Lists, hs: seq<Hash>, i: nat): (r: nat)
    ensures if i <= |hs| then i <= r <= |hs| else r == |hs|
    ensures forall j | i <= j < r && j < |hs| :: Held(lists, hs[j])
    ensures r < |hs| ==> i <= r && !Held(lists, hs[r])
    decreases |hs| - i
  {
    if i >= |hs| then |hs| else if Held(lists, hs[i]) then FirstFresh(lists, hs, i + 1) else i
  }

  /** Of a removed list, each hash once that no remaining block holds. */
  ghost function Orphans(lists: Lists, hs: seq<Hash>): (r: seq<Hash>)
    ensures forall h :: h in r <==> h in hs && !Held(lists, h)
    ensures forall i, j | 0 <= i < j < |r| :: r[i] != r[j]
  {
    if hs == [] then [] else
      var early, h := hs[..|hs| - 1], hs[|hs| - 1];
      assert hs == early + [h];
      Orphans(lists, early) + if h in early || Held(lists, h) then [] else [h]
  }

  function HoldersOf(holders: map<Hash, set<Block>>, h: Hash): set<Block>
  {
    if h in holders then holders[h] else {}
  }

  ghost predicate Inverse(holders: map<Hash, set<Block>>, lists: Lists)
  {
    && (forall h, b :: b in HoldersOf(holders, h) <==> b in lists && h in lists[b])
    && (forall h | h in holders :: holders[h] != {})
  }

  lemma HoldersTell(holders: map<Hash, set<Block>>, lists: Lists, h: Hash)
    requires Inverse(holders, lists)
    ensures HoldersOf(holders, h) == {} <==> !Held(lists, h)
    ensures h in holders <==> Held(lists, h)
  {
    var bucket := HoldersOf(holders, h);
    if bucket != {} {
      var b :| b in bucket;
      assert b in lists && h in lists[b];
    }
    if Held(lists, h) {
      var b :| b in lists && h in lists[b];
      assert b in bucket;
    }
  }

  lemma StartKeepsInverse(holders: map<Hash, set<Block>>, lists: Lists, b: Block)
    requires Inverse(holders, lists)
    ensures Inverse(holders, lists[b := ListOf(lists, b)])
  {
  }

  lemma AppendKeepsInverse(holders: map<Hash, set<Block>>, lists: Lists, b: Block, h: Hash)
    requires Inverse(holders, lists)
    ensures Inverse(holders[h := HoldersOf(holders, h) + {b}], lists[b := ListOf(lists, b) + [h]])
  {
    var next, more := holders[h := HoldersOf(holders, h) + {b}], lists[b := ListOf(lists, b) + [h]];
    forall g, c ensures c in HoldersOf(next, g) <==> c in more && g in more[c] {
      assert c in HoldersOf(next, g) <==> c in HoldersOf(holders, g) || (c == b && g == h);
    }
  }

  lemma HeldAfter(lists: Lists, b: Block, hs: seq<Hash>, h: Hash)
    ensures Held(lists[b := ListOf(lists, b) + hs], h) <==> Held(lists, h) || h in hs
  {
    var more := lists[b := ListOf(lists, b) + hs];
    if h in hs || (b in lists && h in lists[b]) { assert b in more && h in more[b]; }
    if Held(lists, h) {
      var c :| c in lists && h in lists[c];
      assert c in more && h in more[c];
    }
  }

  /** In the middle of a pop: block b's list is gone, and its first i hashes no longer lead to b. */
  ghost predicate Removing(holders: map<Hash, set<Block>>, rest: Lists, b: Block, hs: seq<Hash>, i: nat)
    requires i <= |hs|
  {
    && b !in rest
    && (forall h, c :: c in HoldersOf(holders, h) <==>
                       (c in rest && h in rest[c]) || (c == b && h in hs && h !in hs[..i]))
    && (forall h | h in holders :: holders[h] != {})
  }

  lemma RemovingTells(holders: map<Hash, set<Block>>, rest: Lists, b: Block, hs: seq<Hash>, i: nat)
    requires i < |hs| && Removing(holders, rest, b, hs, i)
    ensures HoldersOf(holders, hs[i]) - {b} == {} <==> !Held(rest, hs[i])
    ensures hs[i] in holders <==> Held(rest, hs[i]) || hs[i] !in hs[..i]
  {
    var h := hs[i];
    var bucket := HoldersOf(holders, h);
    if bucket != {} {
      var c :| c in bucket;
    }
    if bucket - {b} != {} {
      var c :| c in bucket - {b};
      assert c in rest && h in rest[c];
    }
    if Held(rest, h) {
      var c :| c in rest && h in rest[c];
      assert c in bucket - {b};
    }
    assert b in bucket <==> h !in hs[..i];
  }

  lemma RemovingStep(holders: map<Hash, set<Block>>, rest: Lists, b: Block, hs: seq<Hash>, i: nat)
    requires i < |hs| && Removing(holders, rest, b, hs, i)
    ensures var left := HoldersOf(holders, hs[i]) - {b};
            Removing(if left == {} then holders - {hs[i]} else holders[hs[i] := left], rest, b, hs, i + 1)
  {
    var h := hs[i];
    var left := HoldersOf(holders, h) - {b};
    var next := if left == {} then holders - {h} else holders[h := left];
    assert hs[..i + 1] == hs[..i] + [h];
    forall g, c
      ensures c in HoldersOf(next, g) <==> (c in rest && g in rest[c]) || (c == b && g in hs && g !in hs[..i + 1])
    {
      if g == h {
        assert HoldersOf(next, g) == left;
        assert c in left <==> c in HoldersOf(holders, g) && c != b;
      } else {
        assert HoldersOf(next, g) == HoldersOf(holders, g);
      }
    }
  }

  class SubBlockIndex {
    var hashToBlocks: map<Hash, set<Block>>
    var blockHashes: Lists

    ghost predicate Valid() reads this { Inverse(hashToBlocks, blockHashes) }

    constructor ()
      ensures Valid() && blockHashes == map[]
    {
      hashToBlocks, blockHashes := map[], map[];
    }

    method Update(block: Block, hashes: seq<Hash>) returns (first: nat)
      requires Valid()
      modifies this
      ensures Valid() && blockHashes == Updated(old(blockHashes), block, hashes)
      ensures first == FirstFresh(old(blockHashes), hashes, |ListOf(old(blockHashes), block)|)
    {
      hide Inverse, HoldersOf, Held, FirstFresh;
      ghost var before := blockHashes;
      StartKeepsInverse(hashToBlocks, blockHashes, block);
      var existing := ListOf(blockHashes, block);
      ghost var start := existing;
      blockHashes := blockHashes[block := existing];
      first := |hashes|;
      var i := |existing|;
      while i < |hashes|
        invariant |start| <= i && (i <= |hashes| || i == |start|)
        invariant existing == start + if i <= |hashes| then hashes[|start|..i] else []
        invariant Valid() && blockHashes == before[block := existing]
        invariant first == |hashes| || |start| <= first < i
        invariant first == |hashes| ==> forall j | |start| <= j < i :: Held(before, hashes[j])
        invariant first < |hashes| ==>
                    !Held(before, hashes[first]) && forall j | |start| <= j < first :: Held(before, hashes[j])
      {
        var h := hashes[i];
        var bucket := HoldersOf(hashToBlocks, h);
        HoldersTell(hashToBlocks, blockHashes, h);
        HeldAfter(before, block, hashes[|start|..i], h);
        AppendKeepsInverse(hashToBlocks, blockHashes, block, h);
        if bucket == {} && i < first { first := i; }
        assert hashes[|start|..i + 1] == hashes[|start|..i] + [h];
        existing := existing + [h];
        blockHashes, hashToBlocks := blockHashes[block := existing], hashToBlocks[h := bucket + {block}];
        i := i + 1;
      }
      assert existing == Extended(start, hashes);
    }

    method Pop(block: Block) returns (removed: seq<Hash>)
      requires Valid()
      modifies this
      ensures Valid() && blockHashes == old(blockHashes) - {block}
      ensures removed == Orphans(blockHashes, ListOf(old(blockHashes), block))
    {
      removed := [];
      if block in blockHashes {
        var hashes, i := blockHashes[block], 0;
        blockHashes := blockHashes - {block};
        while i < |hashes|
          invariant i <= |hashes| && blockHashes == old(blockHashes) - {block}
          invariant Removing(hashToBlocks, blockHashes, block, hashes, i)
          invariant removed == Orphans(blockHashes, hashes[..i])
        {
          var h := hashes[i];
          RemovingTells(hashToBlocks, blockHashes, block, hashes, i);
          RemovingStep(hashToBlocks, blockHashes, block, hashes, i);
          assert hashes[..i + 1] == hashes[..i] + [h];
          if h in hashToBlocks {
            var left := hashToBlocks[h] - {block};
            if left == {} {
              hashToBlocks := hashToBlocks - {h};
              removed := removed + [h];
            } else {
              hashToBlocks := hashToBlocks[h := left];
            }
          } else {
            assert hashToBlocks - {h} == hashToBlocks;
          }
          i := i + 1;
        }
        assert hashes[..|hashes|] == hashes;
      }
    }

    /** The longest run of leading hashes that are all held, and some block that holds the last of them. */
    method LongestMatch(query: seq<Hash>) returns (best: Option<Block>, depth: nat)
      requires Valid()
      ensures depth == FirstFresh(blockHashes, query, 0)
      ensures best.None? <==> depth == 0
      ensures best.Some? ==> best.value in blockHashes && query[depth - 1] in blockHashes[best.value]
    {
      best, depth := None, 0;
      while depth < |query| && query[depth] in hashToBlocks
        invariant depth <= |query|
        invariant forall j | 0 <= j < depth :: Held(blockHashes, query[j])
        invariant best.None? <==> depth == 0
        invariant best.Some? ==> best.value in blockHashes && query[depth - 1] in blockHashes[best.value]
      {
        HoldersTell(hashToBlocks, blockHashes, query[depth]);
        var block :| block in hashToBlocks[query[depth]];
        best, depth := Some(block), depth + 1;
      }
      if depth < |query| { HoldersTell(hashToBlocks, blockHashes, query[depth]); }
    }
  }

  /******* The longest match *******/

  /** How long two lists agree. */
  function Agreement(a: seq<Hash>, b: seq<Hash>): (r: nat)
    ensures r <= |a| && r <= |b| && forall i | 0 <= i < r :: a[i] == b[i]
    ensures r < |a| && r < |b| ==> a[r] != b[r]
  {
    if a == [] || b == [] || a[0] != b[0] then 0 else 1 + Agreement(a[1..], b[1..])
  }

  ghost predicate AllInBlock(perBlock: nat, lists: Lists)
  {
    forall b | b in lists :: InBlock(perBlock, lists[b])
  }

  /** What longest_match names agrees with the query that far, and no block agrees with it further. */
  lemma LongestMatchLaw(perBlock: nat, lists: Lists, query: seq<Hash>, best: Option<Block>, depth: nat)
    requires AllInBlock(perBlock, lists) && InBlock(perBlock, query)
    requires depth == FirstFresh(lists, query, 0) && (best.None? <==> depth == 0)
    requires best.Some? ==> best.value in lists && query[depth - 1] in lists[best.value]
    ensures best.Some? ==> Agreement(lists[best.value], query) == depth
    ensures forall b | b in lists :: Agreement(lists[b], query) <= depth
  {
    hide FirstFresh, Agreement, InBlock;
    forall b | b in lists ensures Agreement(lists[b], query) <= depth { HeldAsFar(lists, b, query); }
    if best.Some? { LastHashTells(perBlock, lists[best.value], query, depth); }
  }

  lemma LastHashTells(perBlock: nat, list: seq<Hash>, query: seq<Hash>, depth: nat)
    requires InBlock(perBlock, list) && InBlock(perBlock, query) && 0 < depth <= |query| && query[depth - 1] in list
    ensures depth <= Agreement(list, query)
  {
    hide InBlock;
    var j :| 0 <= j < |list| && list[j] == query[depth - 1];
    SharedPrefix(perBlock, list, query, j, depth - 1);
    AgreesAsFar(list, query, depth);
  }

  lemma HeldAsFar(lists: Lists, b: Block, query: seq<Hash>)
    requires b in lists
    ensures Agreement(lists[b], query) <= FirstFresh(lists, query, 0)
  {
    hide Agreement, FirstFresh;
    assert forall i | 0 <= i < Agreement(lists[b], query) :: lists[b][i] == query[i] && Held(lists, query[i]);
  }

  lemma AgreesAsFar(a: seq<Hash>, b: seq<Hash>, n: nat)
    requires n <= |a| && n <= |b| && a[..n] == b[..n]
    ensures n <= Agreement(a, b)
  {
    hide Agreement;
    assert forall i | 0 <= i < n :: a[i] == a[..n][i] == b[..n][i] == b[i];
  }

  lemma ChainPrefix(cs: seq<Content>, i: nat)
    requires i < |cs|
    ensures Chain(None, cs)[i] == Chain(None, cs[..i + 1])[i]
  {
    ChainAppends(None, cs[..i + 1], cs[i + 1..]);
    assert cs == cs[..i + 1] + cs[i + 1..];
  }

  /** Equal hashes at equal places stand for equal sub-blocks from the first token on, and the other way round. */
  lemma HashesTellContents(a: seq<Content>, b: seq<Content>, i: nat, j: nat)
    requires i < |a| && j < |b|
    ensures Chain(None, a)[i] == Chain(None, b)[j] <==> i == j && a[..i + 1] == b[..j + 1]
  {
    hide Chain, Contents;
    ChainAt(a, i);
    ChainAt(b, j);
    if Chain(None, a)[i] == Chain(None, b)[j] {
      assert a[..i + 1] == Contents(Chain(None, a)[i]) == Contents(Chain(None, b)[j]) == b[..j + 1];
      assert i + 1 == |a[..i + 1]| == |b[..j + 1]| == j + 1;
    }
    if a[..i + 1] == b[..j + 1] {
      assert i + 1 == |a[..i + 1]| == |b[..j + 1]| == j + 1;
      ChainPrefix(a, i);
      ChainPrefix(b, j);
    }
  }

  /******* Runs of the index and the events they send *******/

  datatype Op =
    | Store(block: Block, hashes: seq<Hash>)    // update, from _on_block_cached or _index_partial_block
    | Evict(block: Block)                       // pop, from _on_block_evicted
    | Reset                                     // reset_prefix_cache

  datatype Event = Stored(hashes: seq<Hash>) | Removed(hashes: seq<Hash>) | Cleared

  function After(lists: Lists, op: Op): Lists
  {
    match op
    case Store(b, hs) => Updated(lists, b, hs)
    case Evict(b) => lists - {b}
    case Reset => map[]
  }

  ghost function Emitted(lists: Lists, op: Op): seq<Event>
  {
    match op
    case Store(b, hs) =>
      var first := FirstFresh(lists, hs, |ListOf(lists, b)|);
      if first >= |hs| then [] else [Stored(hs[first..])]
    case Evict(b) =>
      var gone := Orphans(lists - {b}, ListOf(lists, b));
      if gone == [] then [] else [Removed(gone)]
    case Reset => [Cleared]
  }

  function RunFrom(lists: Lists, ops: seq<Op>): Lists
    decreases ops
  {
    if ops == [] then lists else RunFrom(After(lists, ops[0]), ops[1..])
  }

  ghost function Events(lists: Lists, ops: seq<Op>): seq<Event>
    decreases ops
  {
    if ops == [] then [] else Emitted(lists, ops[0]) + Events(After(lists, ops[0]), ops[1..])
  }

  function Elements(hs: seq<Hash>): set<Hash> { set h | h in hs }

  /** A reader of the events that keeps the set of hashes stored and not removed. */
  function ReadOne(held: set<Hash>, event: Event): set<Hash>
  {
    match event
    case Stored(hs) => held + Elements(hs)
    case Removed(hs) => held - Elements(hs)
    case Cleared => {}
  }

  function Read(held: set<Hash>, events: seq<Event>): set<Hash>
    decreases events
  {
    if events == [] then held else Read(ReadOne(held, events[0]), events[1..])
  }

  ghost predicate Mirrors(held: set<Hash>, lists: Lists) { forall h :: h in held <==> Held(lists, h) }

  lemma {:induction false} ReadAppends(held: set<Hash>, a: seq<Event>, b: seq<Event>)
    ensures Read(held, a + b) == Read(Read(held, a), b)
    decreases a
  {
    if a == [] {
      assert a + b == b;
    } else {
      assert (a + b)[0] == a[0] && (a + b)[1..] == a[1..] + b;
      ReadAppends(ReadOne(held, a[0]), a[1..], b);
    }
  }

  lemma ReadsOne(held: set<Hash>, e: Event)
    ensures Read(held, [e]) == ReadOne(held, e) && Read(held, []) == held
  {
    assert [e][1..] == [];
  }

  lemma HeldWithout(lists: Lists, b: Block, h: Hash)
    ensures Held(lists, h) <==> Held(lists - {b}, h) || h in ListOf(lists, b)
  {
    if Held(lists, h) && h !in ListOf(lists, b) {
      var c :| c in lists && h in lists[c];
      assert c in lists - {b};
    }
    if Held(lists - {b}, h) {
      var c :| c in lists - {b} && h in (lists - {b})[c];
      assert c in lists && h in lists[c];
    }
  }

  lemma UpdatedHeld(lists: Lists, b: Block, hs: seq<Hash>, h: Hash)
    ensures var had := |ListOf(lists, b)|;
            Held(Updated(lists, b, hs), h) <==> Held(lists, h) || (had < |hs| && h in hs[had..])
  {
    var had := ListOf(lists, b);
    assert had + [] == had;
    HeldAfter(lists, b, if |hs| <= |had| then [] else hs[|had|..], h);
  }

  lemma StoreMirrors(held: set<Hash>, lists: Lists, b: Block, hs: seq<Hash>)
    requires Mirrors(held, lists)
    ensures Mirrors(Read(held, Emitted(lists, Store(b, hs))), Updated(lists, b, hs))
  {
    var had := |ListOf(lists, b)|;
    var first := FirstFresh(lists, hs, had);
    var next := Read(held, Emitted(lists, Store(b, hs)));
    ReadsOne(held, Stored(if first >= |hs| then [] else hs[first..]));
    assert next == if first >= |hs| then held else held + Elements(hs[first..]);
    forall h ensures h in next <==> Held(Updated(lists, b, hs), h) {
      UpdatedHeld(lists, b, hs, h);
      if first < |hs| { assert hs[had..] == hs[had..first] + hs[first..]; }
    }
  }

  lemma EvictMirrors(held: set<Hash>, lists: Lists, b: Block)
    requires Mirrors(held, lists)
    ensures Mirrors(Read(held, Emitted(lists, Evict(b))), lists - {b})
  {
    var gone := Orphans(lists - {b}, ListOf(lists, b));
    var next := Read(held, Emitted(lists, Evict(b)));
    ReadsOne(held, Removed(gone));
    assert next == held - Elements(gone);
    forall h ensures h in next <==> Held(lists - {b}, h) { HeldWithout(lists, b, h); }
  }

  lemma StepMirrors(held: set<Hash>, lists: Lists, op: Op)
    requires Mirrors(held, lists)
    ensures Mirrors(Read(held, Emitted(lists, op)), After(lists, op))
  {
    match op
    case Store(b, hs) => StoreMirrors(held, lists, b, hs);
    case Evict(b) => EvictMirrors(held, lists, b);
    case Reset => ReadsOne(held, Cleared);
  }

  /** Whoever replays the events holds the indexed hashes, through any stores, evictions and resets. */
  lemma {:induction false} RunMirrors(held: set<Hash>, lists: Lists, ops: seq<Op>)
    requires Mirrors(held, lists)
    ensures Mirrors(Read(held, Events(lists, ops)), RunFrom(lists, ops))
    decreases ops
  {
    if ops != [] {
      StepMirrors(held, lists, ops[0]);
      ReadAppends(held, Emitted(lists, ops[0]), Events(After(lists, ops[0]), ops[1..]));
      RunMirrors(Read(held, Emitted(lists, ops[0])), After(lists, ops[0]), ops[1..]);
    }
  }

  /** The block's list is a beginning of what is stored, or already as long. */
  predicate Continues(e: seq<Hash>, hs: seq<Hash>) { |hs| <= |e| || e == hs[..|e|] }

  /** A store leaves every block with consecutive sub-blocks exactly when it continues what the block holds. */
  lemma StoreFitsIff(perBlock: nat, lists: Lists, b: Block, hs: seq<Hash>)
    requires AllInBlock(perBlock, lists) && InBlock(perBlock, hs)
    ensures AllInBlock(perBlock, Updated(lists, b, hs)) <==> Continues(ListOf(lists, b), hs)
  {
    var e, next := ListOf(lists, b), Updated(lists, b, hs);
    var list := Extended(e, hs);
    assert next[b] == list;
    assert InBlock(perBlock, e);
    if Continues(e, hs) {
      assert |hs| > |e| ==> list == hs[..|e|] + hs[|e|..] == hs;
    } else if InBlock(perBlock, list) && e != [] {
      var i := |e|;
      assert list[i] == hs[i] && list[i - 1] == e[i - 1];
      assert Some(e[i - 1]) == list[i].parent == Some(hs[i - 1]);
      SharedPrefix(perBlock, e, hs, i - 1, i - 1);
    }
  }

  ghost predicate Fits(perBlock: nat, lists: Lists, op: Op)
  {
    op.Store? ==> InBlock(perBlock, op.hashes) && Continues(ListOf(lists, op.block), op.hashes)
  }

  ghost predicate AllFit(perBlock: nat, lists: Lists, ops: seq<Op>)
    decreases ops
  {
    ops == [] || (Fits(perBlock, lists, ops[0]) && AllFit(perBlock, After(lists, ops[0]), ops[1..]))
  }

  /** A hash is announced when it was not held, and taken back when it was, once each. */
  ghost predicate News(lists: Lists, event: Event)
  {
    && (event.Stored? ==> forall i | 0 <= i < |event.hashes| :: !Held(lists, event.hashes[i]))
    && (event.Removed? ==> forall i | 0 <= i < |event.hashes| :: Held(lists, event.hashes[i]))
    && (!event.Cleared? ==> forall i, j | 0 <= i < j < |event.hashes| :: event.hashes[i] != event.hashes[j])
  }

  ghost predicate AllNews(lists: Lists, ops: seq<Op>)
    decreases ops
  {
    ops == [] || ((forall e | e in Emitted(lists, ops[0]) :: News(lists, e)) && AllNews(After(lists, ops[0]), ops[1..]))
  }

  /** Everything after the first new hash of a block is new too. */
  lemma StoredIsNew(perBlock: nat, lists: Lists, hs: seq<Hash>, first: nat)
    requires AllInBlock(perBlock, lists) && InBlock(perBlock, hs)
    requires first < |hs| && !Held(lists, hs[first])
    ensures News(lists, Stored(hs[first..]))
  {
    var news := hs[first..];
    forall i | first <= i < |hs| ensures !Held(lists, hs[i]) {
      if Held(lists, hs[i]) {
        var c :| c in lists && hs[i] in lists[c];
        var j :| 0 <= j < |lists[c]| && lists[c][j] == hs[i];
        SharedPrefix(perBlock, hs, lists[c], i, j);
        PrefixAt(hs, lists[c], i, first);
      }
    }
    forall i, j | 0 <= i < j < |news| ensures news[i] != news[j] {
      assert Place(hs[first + i]) % perBlock == first + i && Place(hs[first + j]) % perBlock == first + j;
    }
  }

  lemma PrefixAt(a: seq<Hash>, b: seq<Hash>, i: nat, k: nat)
    requires k <= i < |a| && i < |b| && a[..i + 1] == b[..i + 1]
    ensures a[k] == b[k]
  {
    assert a[k] == a[..i + 1][k] == b[..i + 1][k];
  }

  /** While stores continue what blocks hold, every event is news and every block holds consecutive sub-blocks. */
  lemma {:induction false} RunTellsNews(perBlock: nat, lists: Lists, ops: seq<Op>)
    requires AllInBlock(perBlock, lists) && AllFit(perBlock, lists, ops)
    ensures AllNews(lists, ops) && AllInBlock(perBlock, RunFrom(lists, ops))
    decreases ops
  {
    if ops != [] {
      match ops[0] {
        case Store(b, hs) =>
          StoreFitsIff(perBlock, lists, b, hs);
          var first := FirstFresh(lists, hs, |ListOf(lists, b)|);
          if first < |hs| { StoredIsNew(perBlock, lists, hs, first); }
        case Evict(b) =>
          forall h | h in ListOf(lists, b) ensures Held(lists, h) { assert b in lists; }
        case Reset =>
      }
      RunTellsNews(perBlock, After(lists, ops[0]), ops[1..]);
    }
  }

  const OTHER := Hash(None, Content([2], None))
  const FIRST := Hash(None, Content([1], None))
  const SECOND := Hash(Some(FIRST), Content([3], None))

  lemma StaleRun()
    ensures RunFrom(map[], [Store(1, [OTHER]), Store(1, [FIRST, SECOND]), Store(2, [FIRST])])
            == map[1 := [OTHER, SECOND], 2 := [FIRST]]
  {
    var ops := [Store(1, [OTHER]), Store(1, [FIRST, SECOND]), Store(2, [FIRST])];
    var mixed := [OTHER, SECOND];
    assert Extended([], [OTHER]) == [OTHER] && Extended([], [FIRST]) == [FIRST];
    assert Extended([OTHER], [FIRST, SECOND]) == mixed;
    assert After(map[], ops[0]) == map[1 := [OTHER]];
    assert After(map[1 := [OTHER]], ops[1]) == map[1 := mixed];
    assert ops[1..] == [ops[1], ops[2]] && ops[1..][1..] == [ops[2]] && [ops[2]][1..] == [];
    assert RunFrom(map[1 := mixed], [ops[2]]) == After(map[1 := mixed], ops[2]);
  }

  /** Otherwise a match can lead to a block that shares nothing with the query. */
  lemma StaleListMisleads()
    ensures InBlock(2, [OTHER]) && InBlock(2, [FIRST, SECOND]) && InBlock(2, [FIRST])
    ensures var lists := RunFrom(map[], [Store(1, [OTHER]), Store(1, [FIRST, SECOND]), Store(2, [FIRST])]);
            && FirstFresh(lists, [FIRST, SECOND], 0) == 2
            && 1 in lists && SECOND in lists[1] && !Held(lists - {1}, SECOND)
            && Agreement(lists[1], [FIRST, SECOND]) == 0
  {
    hide Extended, RunFrom;
    StaleRun();
    var lists := map[1 := [OTHER, SECOND], 2 := [FIRST]];
    assert lists[1][1] == SECOND && lists[2][0] == FIRST;
    assert FIRST in lists[2] && SECOND in lists[1];
    assert Held(lists, FIRST) && Held(lists, SECOND);
    assert FirstFresh(lists, [FIRST, SECOND], 2) == 2;
  }

  /******* A partial match over all groups *******/

  datatype Group = Group(perBlock: nat, index: SubBlockIndex)

  /** What a group's index holds, as a value. */
  datatype View = View(perBlock: nat, lists: Lists)

  datatype Match = Match(tokens: nat, sources: seq<Block>)

  ghost function ViewOf(g: Group): View
    reads g.index
  {
    View(g.perBlock, g.index.blockHashes)
  }

  ghost function Views(groups: seq<Group>): (r: seq<View>)
    reads set g | g in groups :: g.index
    ensures |r| == |groups| && forall i | 0 <= i < |groups| :: r[i] == ViewOf(groups[i])
  {
    if groups == [] then [] else [ViewOf(groups[0])] + Views(groups[1..])
  }

  /** Where the first block not fully computed starts among the request's sub-blocks. */
  function StartOf(perBlock: nat, size: nat, computed: nat): nat
    requires perBlock > 0 && size > 0
  {
    computed / BlockSize(perBlock, size) * perBlock
  }

  /** The request's sub-blocks past the full blocks computed so far, short of another full block. */
  function QueryOf(perBlock: nat, size: nat, hashes: seq<Hash>, computed: nat): seq<Hash>
    requires perBlock > 0 && size > 0
  {
    Slice(hashes, StartOf(perBlock, size, computed), perBlock - 1)
  }

  function BlockSize(perBlock: nat, size: nat): (r: nat)
    requires perBlock > 0 && size > 0
    ensures r > 0
  {
    MulMonotone(1, perBlock, size);
    perBlock * size
  }

  ghost function DepthOf(v: View, size: nat, hashes: seq<Hash>, computed: nat): nat
    requires v.perBlock > 0 && size > 0
  {
    FirstFresh(v.lists, QueryOf(v.perBlock, size, hashes, computed), 0)
  }

  /** A block that holds the last hash a group's query matches. */
  ghost predicate SourceOf(v: View, size: nat, hashes: seq<Hash>, computed: nat, b: Block)
    requires v.perBlock > 0 && size > 0
  {
    var depth, query := DepthOf(v, size, hashes, computed), QueryOf(v.perBlock, size, hashes, computed);
    0 < depth <= |query| && b in v.lists && query[depth - 1] in v.lists[b]
  }

  ghost predicate AllMatch(views: seq<View>, size: nat, hashes: seq<Hash>, computed: nat, n: nat)
    requires size > 0 && forall v | v in views :: v.perBlock > 0
  {
    views != [] && forall i | 0 <= i < |views| :: n <= DepthOf(views[i], size, hashes, computed)
  }

  /** Every group matches n sub-blocks, and after them a token is left to compute. */
  ghost predicate Served(views: seq<View>, size: nat, hashes: seq<Hash>, computed: nat, tokens: nat, n: nat)
    requires size > 0 && forall v | v in views :: v.perBlock > 0
  {
    AllMatch(views, size, hashes, computed, n) && computed + n * size < tokens
  }

  ghost predicate SourcesOf(views: seq<View>, size: nat, hashes: seq<Hash>, computed: nat, sources: seq<Block>)
    requires size > 0 && forall v | v in views :: v.perBlock > 0
  {
    && |sources| == |views|
    && forall i | 0 <= i < |views| :: SourceOf(views[i], size, hashes, computed, sources[i])
  }

  lemma CapIsExact(size: nat, room: nat, n: nat)
    requires size > 0
    ensures n <= room / size <==> n * size <= room
  {
    var q := room / size;
    assert room == q * size + room % size;
    MulMonotone(n, q, size);
    MulMonotone(q + 1, n, size);
    assert (q + 1) * size == q * size + size;
  }

  method MatchGroup(size: nat, g: Group, hashes: seq<Hash>, computed: nat) returns (best: Option<Block>, depth: nat)
    requires size > 0 && g.perBlock > 1 && g.index.Valid()
    ensures depth == DepthOf(ViewOf(g), size, hashes, computed)
    ensures best.None? <==> depth == 0
    ensures best.Some? ==> SourceOf(ViewOf(g), size, hashes, computed, best.value)
  {
    best, depth := g.index.LongestMatch(QueryOf(g.perBlock, size, hashes, computed));
  }

  /** The most sub-blocks that every group matches; none where there is no group. */
  ghost predicate IsLeast(views: seq<View>, size: nat, hashes: seq<Hash>, computed: nat, least: nat)
    requires size > 0 && forall v | v in views :: v.perBlock > 0
  {
    forall n: nat | n > 0 :: AllMatch(views, size, hashes, computed, n) <==> n <= least
  }

  lemma LeastNext(views: seq<View>, i: nat, size: nat, hashes: seq<Hash>, computed: nat, least: nat)
    requires i < |views| && size > 0 && forall v | v in views :: v.perBlock > 0
    requires IsLeast(views[..i], size, hashes, computed, least)
    ensures var depth := DepthOf(views[i], size, hashes, computed);
            IsLeast(views[..i + 1], size, hashes, computed, if i == 0 || depth < least then depth else least)
  {
    hide DepthOf;
    var before, next := views[..i], views[..i + 1];
    assert next == before + [views[i]];
    forall n: nat | n > 0
      ensures AllMatch(next, size, hashes, computed, n)
              <==> (i == 0 || AllMatch(before, size, hashes, computed, n))
                   && n <= DepthOf(views[i], size, hashes, computed)
    {
      assert next[i] == views[i] && forall j | 0 <= j < i :: next[j] == before[j];
    }
  }

  /** A group that matches nothing settles the rest. */
  lemma LeastStops(views: seq<View>, i: nat, size: nat, hashes: seq<Hash>, computed: nat)
    requires 0 < i <= |views| && size > 0 && forall v | v in views :: v.perBlock > 0
    requires IsLeast(views[..i], size, hashes, computed, 0)
    ensures IsLeast(views, size, hashes, computed, 0)
  {
    hide DepthOf;
    forall n: nat | n > 0 ensures !AllMatch(views, size, hashes, computed, n) {
      assert !AllMatch(views[..i], size, hashes, computed, n);
      var j :| 0 <= j < i && n > DepthOf(views[..i][j], size, hashes, computed);
      assert views[j] == views[..i][j];
    }
  }

  method MatchGroups(size: nat, groups: seq<Group>, hashes: seq<Hash>, computed: nat)
    returns (least: nat, sources: seq<Block>)
    requires size > 0 && forall g | g in groups :: g.perBlock > 1 && g.index.Valid()
    ensures IsLeast(Views(groups), size, hashes, computed, least)
    ensures least > 0 ==> SourcesOf(Views(groups), size, hashes, computed, sources)
  {
    hide DepthOf, SourceOf, IsLeast;
    ghost var views := Views(groups);
    least, sources := 0, [];
    var i := 0;
    assert IsLeast([], size, hashes, computed, 0) by { NothingMatches(size, hashes, computed); }
    while i < |groups| && (i == 0 || least > 0)
      invariant i <= |groups|
      invariant i == 0 || least > 0 ==> SourcesOf(views[..i], size, hashes, computed, sources)
      invariant i == 0 ==> least == 0
      invariant IsLeast(views[..i], size, hashes, computed, least)
    {
      var best, depth := MatchGroup(size, groups[i], hashes, computed);
      assert views[..i + 1] == views[..i] + [views[i]];
      LeastNext(views, i, size, hashes, computed, least);
      if best.None? {
        least := 0;
      } else {
        if i == 0 || depth < least { least := depth; }
        sources := sources + [best.value];
      }
      i := i + 1;
    }
    if i < |groups| { LeastStops(views, i, size, hashes, computed); }
    assert views[..|views|] == views;
  }

  lemma NothingMatches(size: nat, hashes: seq<Hash>, computed: nat)
    requires size > 0
    ensures IsLeast([], size, hashes, computed, 0)
  {
  }

  /** What get_computed_blocks_sub_block finds: n sub-blocks, the most that the index serves. */
  ghost predicate FoundFor(views: seq<View>, size: nat, hashes: seq<Hash>, computed: nat, tokens: nat,
                           found: Option<Match>, n: nat)
    requires size > 0 && forall v | v in views :: v.perBlock > 0
  {
    && (found.Some? <==> Served(views, size, hashes, computed, tokens, 1))
    && (found.Some? ==>
          && found.value.tokens == n * size > 0
          && Served(views, size, hashes, computed, tokens, n)
          && !Served(views, size, hashes, computed, tokens, n + 1)
          && SourcesOf(views, size, hashes, computed, found.value.sources))
  }

  /** get_computed_blocks_sub_block */
  method PartialMatch(size: nat, groups: seq<Group>, hashes: seq<Hash>, computed: nat, tokens: nat)
    returns (found: Option<Match>, ghost n: nat)
    requires size > 0 && computed < tokens
    requires forall g | g in groups :: g.perBlock > 1 && g.index.Valid()
    ensures FoundFor(Views(groups), size, hashes, computed, tokens, found, n)
  {
    hide AllMatch, SourcesOf;
    var least, sources := MatchGroups(size, groups, hashes, computed);
    n, found := 0, None;
    var room := tokens - 1 - computed;
    var matched := if least < room / size then least else room / size;
    CapIsExact(size, room, 1);
    CapIsExact(size, room, matched);
    CapIsExact(size, room, matched + 1);
    if matched > 0 {
      MulMonotone(0, matched, size);
      n, found := matched, Some(Match(matched * size, sources));
    }
  }

  /** The copy lands right after the computed tokens exactly when those fill whole blocks of the group. */
  lemma LandsAtComputedIff(perBlock: nat, size: nat, computed: nat)
    requires perBlock > 0 && size > 0
    ensures StartOf(perBlock, size, computed) * size == computed <==> computed % BlockSize(perBlock, size) == 0
  {
    var b := BlockSize(perBlock, size);
    MulAssociate(computed / b, perBlock, 0, size);
    assert computed == computed / b * b + computed % b;
  }

  /** It is the last place, counted in whole blocks, not past the computed tokens. */
  lemma StartIsLastBoundary(perBlock: nat, size: nat, computed: nat)
    requires perBlock > 0 && size > 0
    ensures var start := StartOf(perBlock, size, computed);
            start % perBlock == 0 && start * size <= computed < (start + perBlock) * size
  {
    var b := BlockSize(perBlock, size);
    var full := computed / b;
    MulAssociate(full, perBlock, 0, size);
    IndexUnique(full, perBlock, 0);
    assert (full * perBlock + perBlock) * size == full * perBlock * size + perBlock * size;
    assert computed == full * b + computed % b;
  }

  /** The list's first n hashes stand for the request's sub-blocks from `start` on, and for all that precedes them. */
  ghost predicate Holds(list: seq<Hash>, cs: seq<Content>, start: nat, n: nat)
  {
    start + n <= |cs| && n <= |list| && forall i | 0 <= i < n :: Contents(list[i]) == cs[..start + i + 1]
  }

  /** Some block of the group holds the request's next n sub-blocks, and they are less than a block. */
  ghost predicate CanServe(v: View, size: nat, cs: seq<Content>, computed: nat, n: nat)
    requires v.perBlock > 0 && size > 0
  {
    n < v.perBlock && exists b :: b in v.lists && Holds(v.lists[b], cs, StartOf(v.perBlock, size, computed), n)
  }

  lemma AgreeingHolds(cs: seq<Content>, start: nat, count: nat, list: seq<Hash>, n: nat)
    requires 0 < n <= Agreement(list, Slice(Chain(None, cs), start, count))
    ensures Holds(list, cs, start, n)
  {
    hide Contents, Chain, Slice, Agreement;
    var hs := Chain(None, cs);
    forall i | 0 <= i < n ensures Contents(list[i]) == cs[..start + i + 1] {
      assert list[i] == hs[start + i];
      ChainAt(cs, start + i);
    }
  }

  lemma QueryFits(perBlock: nat, size: nat, cs: seq<Content>, computed: nat)
    requires perBlock > 1 && size > 0
    ensures InBlock(perBlock, QueryOf(perBlock, size, Chain(None, cs), computed))
  {
    hide Slice, Chain, InBlock, BlockSize;
    SliceFits(perBlock, cs, computed / BlockSize(perBlock, size), perBlock - 1);
  }

  lemma SourceAgrees(perBlock: nat, lists: Lists, query: seq<Hash>, b: Block, n: nat)
    requires AllInBlock(perBlock, lists) && InBlock(perBlock, query) && b in lists
    requires 0 < n <= FirstFresh(lists, query, 0) <= |query| && query[FirstFresh(lists, query, 0) - 1] in lists[b]
    ensures n <= Agreement(lists[b], query)
  {
    hide InBlock, Agreement, FirstFresh;
    LongestMatchLaw(perBlock, lists, query, Some(b), FirstFresh(lists, query, 0));
  }

  /** A source holds the request's own sub-blocks as far as the match goes. */
  lemma SourceHolds(v: View, size: nat, cs: seq<Content>, computed: nat, b: Block, n: nat)
    requires v.perBlock > 1 && size > 0 && AllInBlock(v.perBlock, v.lists)
    requires SourceOf(v, size, Chain(None, cs), computed, b) && 0 < n <= DepthOf(v, size, Chain(None, cs), computed)
    ensures b in v.lists && Holds(v.lists[b], cs, StartOf(v.perBlock, size, computed), n)
  {
    hide Holds, Slice, Chain, FirstFresh, Agreement, InBlock, AllInBlock, StartOf;
    var query := QueryOf(v.perBlock, size, Chain(None, cs), computed);
    QueryFits(v.perBlock, size, cs, computed);
    SourceAgrees(v.perBlock, v.lists, query, b, n);
    AgreeingHolds(cs, StartOf(v.perBlock, size, computed), v.perBlock - 1, v.lists[b], n);
  }

  lemma {:induction false} ContentsTellHash(g: Hash, h: Hash)
    requires Contents(g) == Contents(h)
    ensures g == h
  {
    var a, b := Contents(g), Contents(h);
    assert a[|a| - 1] == g.content && b[|b| - 1] == h.content;
    if g.parent.Some? && h.parent.Some? {
      assert a[..|a| - 1] == Contents(g.parent.value) && b[..|b| - 1] == Contents(h.parent.value);
      ContentsTellHash(g.parent.value, h.parent.value);
    }
  }

  lemma HoldsAgrees(cs: seq<Content>, start: nat, list: seq<Hash>, n: nat)
    requires Holds(list, cs, start, n)
    ensures forall i | 0 <= i < n :: list[i] == Chain(None, cs)[start + i]
  {
    hide Contents, Chain;
    forall i | 0 <= i < n ensures list[i] == Chain(None, cs)[start + i] {
      ChainAt(cs, start + i);
      ContentsTellHash(list[i], Chain(None, cs)[start + i]);
    }
  }

  lemma SliceReaches(hs: seq<Hash>, lo: nat, count: nat, n: nat)
    requires n <= count && lo + n <= |hs|
    ensures n <= |Slice(hs, lo, count)|
  {
  }

  lemma ServedIsDeep(v: View, size: nat, cs: seq<Content>, computed: nat, n: nat, b: Block)
    requires v.perBlock > 1 && size > 0 && 0 < n < v.perBlock && b in v.lists
    requires Holds(v.lists[b], cs, StartOf(v.perBlock, size, computed), n)
    ensures n <= DepthOf(v, size, Chain(None, cs), computed)
  {
    hide Chain, Slice, FirstFresh, StartOf, Contents;
    var hs, start, list := Chain(None, cs), StartOf(v.perBlock, size, computed), v.lists[b];
    var query := QueryOf(v.perBlock, size, hs, computed);
    SliceReaches(hs, start, v.perBlock - 1, n);
    HoldsAgrees(cs, start, list, n);
    forall i | 0 <= i < n ensures Held(v.lists, query[i]) { assert query[i] == hs[start + i] == list[i]; }
  }

  /** How deep a group matches is how many of the request's next sub-blocks one of its blocks holds. */
  lemma DepthIffServes(v: View, size: nat, cs: seq<Content>, computed: nat, n: nat)
    requires v.perBlock > 1 && size > 0 && n > 0 && AllInBlock(v.perBlock, v.lists)
    ensures n <= DepthOf(v, size, Chain(None, cs), computed) <==> CanServe(v, size, cs, computed, n)
  {
    hide Chain, Holds, StartOf, FirstFresh, Slice;
    var hs := Chain(None, cs);
    var depth, query := DepthOf(v, size, hs, computed), QueryOf(v.perBlock, size, hs, computed);
    if n <= depth {
      assert Held(v.lists, query[depth - 1]);
      var b :| b in v.lists && query[depth - 1] in v.lists[b];
      SourceHolds(v, size, cs, computed, b, n);
    }
    if CanServe(v, size, cs, computed, n) {
      var b :| b in v.lists && Holds(v.lists[b], cs, StartOf(v.perBlock, size, computed), n);
      ServedIsDeep(v, size, cs, computed, n, b);
    }
  }

  /** On the request's contents: every group can serve n sub-blocks, and a token is left to compute after them. */
  ghost predicate CanServeAll(views: seq<View>, size: nat, cs: seq<Content>, computed: nat, tokens: nat, n: nat)
    requires size > 0 && forall v | v in views :: v.perBlock > 1
  {
    && views != [] && computed + n * size < tokens
    && forall g | 0 <= g < |views| :: CanServe(views[g], size, cs, computed, n)
  }

  lemma ServedIff(views: seq<View>, size: nat, cs: seq<Content>, computed: nat, tokens: nat, n: nat)
    requires size > 0 && n > 0 && forall v | v in views :: v.perBlock > 1 && AllInBlock(v.perBlock, v.lists)
    ensures Served(views, size, Chain(None, cs), computed, tokens, n)
            <==> CanServeAll(views, size, cs, computed, tokens, n)
  {
    hide DepthOf, CanServe, AllInBlock, Chain;
    forall g | 0 <= g < |views|
      ensures n <= DepthOf(views[g], size, Chain(None, cs), computed) <==> CanServe(views[g], size, cs, computed, n)
    {
      assert views[g] in views;
      DepthIffServes(views[g], size, cs, computed, n);
    }
  }

  /** Serving fewer is never harder. */
  lemma CanServeFewer(views: seq<View>, size: nat, cs: seq<Content>, computed: nat, tokens: nat, m: nat, n: nat)
    requires size > 0 && m <= n && forall v | v in views :: v.perBlock > 1
    requires CanServeAll(views, size, cs, computed, tokens, n)
    ensures CanServeAll(views, size, cs, computed, tokens, m)
  {
    hide StartOf, Contents;
    MulMonotone(m, n, size);
    forall g | 0 <= g < |views| ensures CanServe(views[g], size, cs, computed, m) {
      var v := views[g];
      var b :| b in v.lists && Holds(v.lists[b], cs, StartOf(v.perBlock, size, computed), n);
      assert Holds(v.lists[b], cs, StartOf(v.perBlock, size, computed), m);
    }
  }

  /**
   What a partial match is. Something is found exactly when every group has a block that holds the request's next
   sub-block, preceded by the request's own tokens, and a token would be left to compute. Then the n sub-blocks found
   are the most of which that is true, and each group's source holds them.
   */
  lemma PartialMatchLaw(views: seq<View>, size: nat, cs: seq<Content>, computed: nat, tokens: nat,
                        found: Option<Match>, n: nat)
    requires size > 0 && forall v | v in views :: v.perBlock > 1 && AllInBlock(v.perBlock, v.lists)
    requires FoundFor(views, size, Chain(None, cs), computed, tokens, found, n)
    ensures found.Some? <==> CanServeAll(views, size, cs, computed, tokens, 1)
    ensures found.Some? ==>
              && found.value.tokens == n * size && n > 0 && |found.value.sources| == |views|
              && (forall m: nat :: CanServeAll(views, size, cs, computed, tokens, m) <==> m <= n)
              && forall g | 0 <= g < |views| ::
                found.value.sources[g] in views[g].lists &&
                Holds(views[g].lists[found.value.sources[g]], cs, StartOf(views[g].perBlock, size, computed), n)
  {
    hide SourceOf, Served, CanServeAll, Holds, Chain, StartOf, AllInBlock;
    ServedIff(views, size, cs, computed, tokens, 1);
    if found.Some? {
      MulMonotone(0, n, size);
      ServedIff(views, size, cs, computed, tokens, n);
      ServedIff(views, size, cs, computed, tokens, n + 1);
      forall m: nat ensures CanServeAll(views, size, cs, computed, tokens, m) <==> m <= n {
        if m <= n {
          CanServeFewer(views, size, cs, computed, tokens, m, n);
        } else if CanServeAll(views, size, cs, computed, tokens, m) {
          CanServeFewer(views, size, cs, computed, tokens, n + 1, m);
        }
      }
      SourcesHold(views, size, cs, computed, tokens, found.value.sources, n);
    }
  }

  lemma SourcesHold(views: seq<View>, size: nat, cs: seq<Content>, computed: nat, tokens: nat, sources: seq<Block>,
                    n: nat)
    requires size > 0 && n > 0 && forall v | v in views :: v.perBlock > 1 && AllInBlock(v.perBlock, v.lists)
    requires Served(views, size, Chain(None, cs), computed, tokens, n)
    requires SourcesOf(views, size, Chain(None, cs), computed, sources)
    ensures |sources| == |views|
    ensures forall g | 0 <= g < |views| ::
              sources[g] in views[g].lists &&
              Holds(views[g].lists[sources[g]], cs, StartOf(views[g].perBlock, size, computed), n)
  {
    hide SourceOf, DepthOf, Holds, Chain, StartOf, AllInBlock;
    forall g | 0 <= g < |views|
      ensures sources[g] in views[g].lists
      ensures Holds(views[g].lists[sources[g]], cs, StartOf(views[g].perBlock, size, computed), n)
    {
      assert views[g] in views;
      SourceHolds(views[g], size, cs, computed, sources[g], n);
    }
  }
}
