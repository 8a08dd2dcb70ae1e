/** What the pool keeps over whole runs of malloc and free. */
module PoolRuns {
  import opened PoolSpec

  function Initial(total: nat): seq<Block> { [Block(0, total, true)] }

  /** The live blocks. */
  function LiveSet(bs: seq<Block>): set<Block> {
    set b | b in bs && !b.free
  }

  lemma {:induction false} Distinct(bs: seq<Block>, total: nat, i: nat, j: nat)
    requires Tiles(bs, total) && i < |bs| && j < |bs| && bs[i].addr == bs[j].addr
    ensures i == j
  {
    assert Joined(bs, total, i) && Joined(bs, total, j);
    if i < j { Ordered(bs, total, i, j); }
    if j < i { Ordered(bs, total, j, i); }
  }

  /** malloc adds one live block of the size asked for, at the lowest free address that fits, and touches no other. */
  lemma {:induction false} AllocLive(bs: seq<Block>, total: nat, n: nat)
    requires Ok(bs, total) && n >= 1
    ensures var k := FirstFit(bs, n);
            if k < |bs| then
              var b := Block(bs[k].addr, n, false);
              b !in LiveSet(bs) && LiveSet(Alloc(bs, n)) == LiveSet(bs) + {b}
            else Alloc(bs, n) == bs
  {
    var k := FirstFit(bs, n);
    if k < |bs| {
      hide FirstFit, Tiles, Coalesced, Split;
      NotYetLive(bs, total, k, n);
      SplitLive(bs, k, n);
    }
  }

  lemma NotYetLive(bs: seq<Block>, total: nat, k: nat, n: nat)
    requires Ok(bs, total) && k < |bs| && bs[k].free
    ensures Block(bs[k].addr, n, false) !in LiveSet(bs)
  {
    var b := Block(bs[k].addr, n, false);
    if b in LiveSet(bs) {
      var j :| 0 <= j < |bs| && bs[j] == b;
      Distinct(bs, total, j, k);
    }
  }

  lemma SplitLive(bs: seq<Block>, k: nat, n: nat)
    requires k < |bs| && bs[k].free && 1 <= n <= bs[k].size
    ensures LiveSet(Take(bs, k, n)) == LiveSet(bs) + {Block(bs[k].addr, n, false)}
  {
    var r, b := Take(bs, k, n), Block(bs[k].addr, n, false);
    assert r == bs[..k] + Split(bs[k], n) + bs[k + 1..];
    assert bs == bs[..k] + [bs[k]] + bs[k + 1..];
    assert forall x :: x in LiveSet(r) <==> x in LiveSet(bs) || x == b;
  }

  lemma {:induction false} MergeLive(bs: seq<Block>, i: nat)
    requires Touching(bs, i)
    ensures LiveSet(MergeAt(bs, i)) == LiveSet(bs)
  {
    assert bs == bs[..i] + [bs[i], bs[i + 1]] + bs[i + 2..];
    assert forall x :: x in LiveSet(MergeAt(bs, i)) <==> x in LiveSet(bs);
  }

  /** free takes exactly the block it is given out of the live ones. */
  lemma {:induction false} ReleaseLive(bs: seq<Block>, total: nat, k: nat)
    requires Ok(bs, total) && k < |bs| && !bs[k].free
    ensures bs[k] in LiveSet(bs) && LiveSet(Release(bs, k)) == LiveSet(bs) - {bs[k]}
  {
    var marked := bs[k := bs[k].(free := true)];
    forall x ensures x in LiveSet(marked) <==> x in LiveSet(bs) && x != bs[k] {
      if x in LiveSet(bs) && x != bs[k] {
        var j :| 0 <= j < |bs| && bs[j] == x;
        assert marked[j] == x;
      }
      if x in LiveSet(marked) {
        var j :| 0 <= j < |bs| && marked[j] == x;
        assert j != k && bs[j] == x;
        if bs[j] == bs[k] { Distinct(bs, total, j, k); }
      }
    }
    if k > 0 && bs[k - 1].free {
      MergeLive(marked, k - 1);
      if Touching(MergeAt(marked, k - 1), k - 1) { MergeLive(MergeAt(marked, k - 1), k - 1); }
    } else if Touching(marked, k) {
      MergeLive(marked, k);
    }
  }

  // ---- runs ----

  datatype Op = Malloc(units: nat) | Free(addr: nat)

  /** Index of the live block at an address, or |bs|. */
  function LiveIndex(bs: seq<Block>, addr: nat): (k: nat)
    ensures k <= |bs|
    ensures k < |bs| ==> !bs[k].free && bs[k].addr == addr
    ensures k == |bs| ==> forall b :: b in LiveSet(bs) ==> b.addr != addr
  {
    if bs == [] then 0 else if !bs[0].free && bs[0].addr == addr then 0 else 1 + LiveIndex(bs[1..], addr)
  }

  // a caller frees live blocks only
  predicate Legal(bs: seq<Block>, op: Op) {
    match op
    case Malloc(units) => units >= 1
    case Free(addr) => LiveIndex(bs, addr) < |bs|
  }

  function Do(bs: seq<Block>, op: Op): seq<Block>
    requires Legal(bs, op)
  {
    match op
    case Malloc(units) => Alloc(bs, units)
    case Free(addr) => Release(bs, LiveIndex(bs, addr))
  }

  predicate LegalRun(bs: seq<Block>, ops: seq<Op>)
    decreases |ops|
  {
    ops == [] || (Legal(bs, ops[0]) && LegalRun(Do(bs, ops[0]), ops[1..]))
  }

  function DoAll(bs: seq<Block>, ops: seq<Op>): seq<Block>
    requires LegalRun(bs, ops)
    decreases |ops|
  {
    if ops == [] then bs else DoAll(Do(bs, ops[0]), ops[1..])
  }

  lemma {:induction false} RunKeepsOk(bs: seq<Block>, total: nat, ops: seq<Op>)
    requires Ok(bs, total) && LegalRun(bs, ops)
    ensures Ok(DoAll(bs, ops), total)
    decreases |ops|
  {
    if ops != [] {
      match ops[0] {
        case Malloc(units) =>
          var k := FirstFit(bs, units);
          if k < |bs| { TakeOk(bs, total, k, units); }
        case Free(addr) =>
          ReleaseOk(bs, total, LiveIndex(bs, addr));
      }
      RunKeepsOk(Do(bs, ops[0]), total, ops[1..]);
    }
  }

  function Units(bs: seq<Block>, free: bool): nat {
    if bs == [] then 0 else (if bs[0].free == free then bs[0].size else 0) + Units(bs[1..], free)
  }

  lemma {:induction false} UnitsFrom(bs: seq<Block>, total: nat, i: nat)
    requires Tiles(bs, total) && i <= |bs|
    ensures Units(bs[i..], true) + Units(bs[i..], false) == total - (if i < |bs| then bs[i].addr else total)
    decreases |bs| - i
  {
    if i < |bs| {
      assert bs[i..][1..] == bs[i + 1..];
      assert Joined(bs, total, i);
      UnitsFrom(bs, total, i + 1);
    }
  }

  // no live block: by coalescing there is one block, and by tiling it is the whole buffer
  lemma {:induction false} AllFree(bs: seq<Block>, total: nat)
    requires Ok(bs, total) && total > 0 && LiveSet(bs) == {}
    ensures bs == Initial(total)
  {
    forall i | 0 <= i < |bs| ensures bs[i].free {
      assert bs[i] in bs && bs[i] !in LiveSet(bs);
    }
    assert Joined(bs, total, 0);
    if |bs| > 1 { assert Touching(bs, 0); }
  }

  /**
    The allocator invariant over every run: the blocks tile the buffer, no two free ones touch, live and free
    units add up to the total, and once nothing is live the pool is the single block it started as.
   */
  lemma {:induction false} RunInvariant(total: nat, ops: seq<Op>)
    requires total > 0 && LegalRun(Initial(total), ops)
    ensures var bs := DoAll(Initial(total), ops);
            && Ok(bs, total)
            && Units(bs, true) + Units(bs, false) == total
            && (LiveSet(bs) == {} ==> bs == Initial(total))
  {
    var start := Initial(total);
    assert Joined(start, total, 0);
    RunKeepsOk(start, total, ops);
    var bs := DoAll(start, ops);
    assert bs[0..] == bs;
    UnitsFrom(bs, total, 0);
    if LiveSet(bs) == {} { AllFree(bs, total); }
  }

  function Frees(addrs: seq<nat>): seq<Op> {
    if addrs == [] then [] else [Free(addrs[0])] + Frees(addrs[1..])
  }

  /** Freeing all live blocks, each once and in any order, is legal and restores the initial block. */
  lemma {:induction false} FreeAllRestores(bs: seq<Block>, total: nat, addrs: seq<nat>)
    requires Ok(bs, total) && total > 0
    requires forall i, j :: 0 <= i < j < |addrs| ==> addrs[i] != addrs[j]
    requires forall a :: a in addrs <==> exists b :: b in LiveSet(bs) && b.addr == a
    ensures LegalRun(bs, Frees(addrs)) && DoAll(bs, Frees(addrs)) == Initial(total)
    decreases |addrs|
  {
    if addrs == [] {
      forall b ensures b !in LiveSet(bs) { assert b in LiveSet(bs) ==> b.addr in addrs; }
      AllFree(bs, total);
    } else {
      var k := LiveIndex(bs, addrs[0]);
      assert addrs[0] in addrs;
      ReleaseLive(bs, total, k);
      ReleaseOk(bs, total, k);
      var next := Release(bs, k);
      assert Frees(addrs)[1..] == Frees(addrs[1..]);
      forall a ensures a in addrs[1..] <==> exists b :: b in LiveSet(next) && b.addr == a {
        if a in addrs[1..] {
          assert a in addrs && a != addrs[0];
          var b :| b in LiveSet(bs) && b.addr == a;
          assert b in LiveSet(next);
        }
        if b :| b in LiveSet(next) && b.addr == a {
          assert a in addrs;
          if a == addrs[0] {
            var i :| 0 <= i < |bs| && bs[i] == b;
            Distinct(bs, total, i, k);
          }
        }
      }
      FreeAllRestores(next, total, addrs[1..]);
    }
  }

  // ---- maxBlockSize decides malloc ----

  function MaxPayload(bs: seq<Block>): nat {
    if bs == [] then 0
    else
      var rest := MaxPayload(bs[1..]);
      if bs[0].free && bs[0].size >= 1 && bs[0].size - 1 > rest then bs[0].size - 1 else rest
  }

  function FreePayload(bs: seq<Block>): nat {
    if bs == [] then 0 else (if bs[0].free && bs[0].size >= 1 then bs[0].size - 1 else 0) + FreePayload(bs[1..])
  }

  /** Request size in header units: rounded up, plus one for the header. */
  function RequestUnits(size: nat): (n: nat)
    ensures n >= 1
    ensures size > 0 ==> n >= 2
  {
    size / HEADER_SIZE + (if size % HEADER_SIZE != 0 then 1 else 0) + 1
  }

  lemma {:induction false} FitsMax(bs: seq<Block>, n: nat)
    requires n >= 2 && forall i :: 0 <= i < |bs| ==> bs[i].size >= 1
    ensures FirstFit(bs, n) < |bs| <==> n - 1 <= MaxPayload(bs)
  {
    if bs != [] { FitsMax(bs[1..], n); }
  }

  /** A request of size > 0 finds a block exactly when it is at most what maxBlockSize reports. */
  lemma {:induction false} MallocSucceedsIff(bs: seq<Block>, total: nat, size: nat)
    requires Ok(bs, total) && size > 0
    ensures FirstFit(bs, RequestUnits(size)) < |bs| <==> size <= MaxPayload(bs) * HEADER_SIZE
  {
    forall i | 0 <= i < |bs| ensures bs[i].size >= 1 { assert Joined(bs, total, i); }
    FitsMax(bs, RequestUnits(size));
  }

  // ---- equal-sized requests ----

  predicate Multiple(a: nat, m: nat)
    requires m > 0
  {
    a == 0 || (a >= m && Multiple(a - m, m))
  }

  lemma {:induction false} MultipleSum(a: nat, b: nat, m: nat)
    requires m > 0 && Multiple(a, m) && Multiple(b, m)
    ensures Multiple(a + b, m)
  {
    if a > 0 { MultipleSum(a - m, b, m); }
  }

  lemma {:induction false} MultipleDifference(a: nat, b: nat, m: nat)
    requires m > 0 && Multiple(a, m) && Multiple(b, m) && a >= b
    ensures Multiple(a - b, m)
  {
    if b > 0 { MultipleDifference(a - m, b - m, m); }
  }

  lemma {:induction false} MultipleProduct(n: nat, m: nat)
    requires m > 0
    ensures Multiple(n * m, m)
  {
    if n > 0 {
      MultipleProduct(n - 1, m);
      assert n * m == (n - 1) * m + m;
    }
  }

  /** Every block starts at a multiple of the stride, and live blocks are one stride long. */
  predicate Strided(bs: seq<Block>, stride: nat)
    requires stride > 0
  {
    forall i :: 0 <= i < |bs| ==> Multiple(bs[i].addr, stride) && (!bs[i].free ==> bs[i].size == stride)
  }

  lemma FreeSizeStrided(bs: seq<Block>, total: nat, stride: nat, i: nat)
    requires Tiles(bs, total) && stride > 0 && Strided(bs, stride) && Multiple(total, stride) && i < |bs|
    ensures bs[i].size >= stride
  {
    assert Joined(bs, total, i);
    MultipleDifference(if i + 1 < |bs| then bs[i + 1].addr else total, bs[i].addr, stride);
  }

  lemma {:induction false} LiveUnits(bs: seq<Block>, stride: nat)
    requires stride > 0 && Strided(bs, stride)
    ensures Units(bs, false) == stride * LiveCount(bs)
  {
    if bs != [] {
      assert Strided(bs[1..], stride);
      LiveUnits(bs[1..], stride);
    }
  }

  function LiveCount(bs: seq<Block>): nat {
    if bs == [] then 0 else (if bs[0].free then 0 else 1) + LiveCount(bs[1..])
  }

  lemma {:induction false} SomeFree(bs: seq<Block>)
    requires Units(bs, true) > 0
    ensures exists i :: 0 <= i < |bs| && bs[i].free
  {
    if !bs[0].free {
      SomeFree(bs[1..]);
      var i :| 0 <= i < |bs[1..]| && bs[1..][i].free;
      assert bs[i + 1].free;
    }
  }

  lemma StridedAlloc(bs: seq<Block>, stride: nat, n: nat)
    requires stride > 0 && Strided(bs, stride) && n == stride
    ensures Strided(Alloc(bs, n), stride)
  {
    var k := FirstFit(bs, n);
    if k < |bs| {
      var r := Alloc(bs, n);
      var d := |r| - |bs|;
      MultipleSum(bs[k].addr, stride, stride);
      forall i | 0 <= i < |r| ensures Multiple(r[i].addr, stride) && (!r[i].free ==> r[i].size == stride) {
        if i < k { assert r[i] == bs[i]; } else if i > k + d { assert r[i] == bs[i - d]; }
      }
    }
  }

  lemma StridedMerge(bs: seq<Block>, stride: nat, i: nat)
    requires stride > 0 && Strided(bs, stride) && i + 1 < |bs|
    ensures Strided(MergeAt(bs, i), stride)
  {
    var r := MergeAt(bs, i);
    forall j | 0 <= j < |r| ensures Multiple(r[j].addr, stride) && (!r[j].free ==> r[j].size == stride) {
      if j < i { assert r[j] == bs[j]; } else if j > i { assert r[j] == bs[j + 1]; } else { assert Multiple(bs[i].addr, stride); }
    }
  }

  lemma StridedRelease(bs: seq<Block>, stride: nat, k: nat)
    requires stride > 0 && Strided(bs, stride) && k < |bs|
    ensures Strided(Release(bs, k), stride)
  {
    var marked := bs[k := bs[k].(free := true)];
    if k > 0 && bs[k - 1].free {
      StridedMerge(marked, stride, k - 1);
      var once := MergeAt(marked, k - 1);
      if Touching(once, k - 1) { StridedMerge(once, stride, k - 1); }
    } else if Touching(marked, k) {
      StridedMerge(marked, stride, k);
    }
  }

  lemma {:induction false} StridedRun(bs: seq<Block>, stride: nat, ops: seq<Op>)
    requires stride > 0 && Strided(bs, stride) && LegalRun(bs, ops)
    requires forall op :: op in ops && op.Malloc? ==> op.units == stride
    ensures Strided(DoAll(bs, ops), stride)
    decreases |ops|
  {
    if ops != [] {
      assert ops[0] in ops;
      match ops[0] {
        case Malloc(units) => StridedAlloc(bs, stride, units);
        case Free(addr) => StridedRelease(bs, stride, LiveIndex(bs, addr));
      }
      StridedRun(Do(bs, ops[0]), stride, ops[1..]);
    }
  }

  /**
    Uniform sizes never fragment: in a pool of nrBlocks strides, when every request takes one stride, after
    any interleaving of mallocs and frees a further request succeeds exactly while fewer than nrBlocks are live.
   */
  lemma {:induction false} UniformGuarantee(nrBlocks: nat, stride: nat, ops: seq<Op>)
    requires nrBlocks > 0 && stride >= 1
    requires LegalRun(Initial(nrBlocks * stride), ops)
    requires forall op :: op in ops && op.Malloc? ==> op.units == stride
    ensures var bs := DoAll(Initial(nrBlocks * stride), ops);
            FirstFit(bs, stride) < |bs| <==> LiveCount(bs) < nrBlocks
  {
    var total := nrBlocks * stride;
    MultipleProduct(nrBlocks, stride);
    assert total > 0 by { assert total == (nrBlocks - 1) * stride + stride; assert (nrBlocks - 1) * stride >= 0; }
    var bs := DoAll(Initial(total), ops);
    RunInvariant(total, ops);
    assert Strided(Initial(total), stride);
    StridedRun(Initial(total), stride, ops);
    LiveUnits(bs, stride);
    FreeWhileLive(nrBlocks, stride, LiveCount(bs), Units(bs, true));
    hide Units, LiveCount, DoAll, LegalRun, FirstFit, Tiles, Strided;
    if Units(bs, true) > 0 {
      SomeFree(bs);
      var i :| 0 <= i < |bs| && bs[i].free;
      FreeSizeStrided(bs, total, stride, i);
    } else if FirstFit(bs, stride) < |bs| {
      FreeUnitsPositive(bs, FirstFit(bs, stride));
      assert false;
    }
  }

  lemma FreeWhileLive(nrBlocks: nat, stride: nat, live: nat, free: nat)
    requires free + stride * live == nrBlocks * stride && stride > 0
    ensures free > 0 <==> live < nrBlocks
  {
    assert free == stride * (nrBlocks - live);
    if live < nrBlocks {
      assert stride * (nrBlocks - live) == stride * (nrBlocks - live - 1) + stride;
      assert stride * (nrBlocks - live - 1) >= 0;
    } else {
      assert stride * (live - nrBlocks) >= 0;
    }
  }

  lemma {:induction false} FreeUnitsPositive(bs: seq<Block>, i: nat)
    requires i < |bs| && bs[i].free && bs[i].size >= 1
    ensures Units(bs, true) > 0
  {
    if i > 0 { FreeUnitsPositive(bs[1..], i - 1); }
  }
}
