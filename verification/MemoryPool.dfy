/**
  The pool as it lies in memory (src/MemoryPool/src/Variable.h): every header unit of the buffer has a `next`
  and a `size` cell, block addresses are unit indices, and the free list is threaded through the headers of
  the free blocks. What is between the headers of live blocks belongs to the caller.
 */
module MemoryPool {
  import opened PoolSpec
  import opened PoolRuns

  // the `next` cell of block i: the next free block for a free one, null for a live one
  function Link(bs: seq<Block>, i: nat): int
    requires i < |bs|
  {
    if bs[i].free then FirstFree(bs[i + 1..]) else NULL
  }

  predicate HeaderAt(bs: seq<Block>, next: seq<int>, size: seq<int>, i: nat)
    requires i < |bs| && |next| == |size|
  {
    bs[i].addr < |next| && size[bs[i].addr] == bs[i].size && next[bs[i].addr] == Link(bs, i)
  }

  /** The header cells say what the layout says. */
  predicate Headers(bs: seq<Block>, next: seq<int>, size: seq<int>)
    requires |next| == |size|
  {
    forall i :: 0 <= i < |bs| ==> HeaderAt(bs, next, size, i)
  }

  predicate Inside(b: Block, total: nat) {
    b.addr < total && b.size >= 1 && b.addr + b.size <= total
  }

  predicate InBuffer(bs: seq<Block>, total: nat) {
    forall i :: 0 <= i < |bs| ==> Inside(bs[i], total)
  }

  // the last free block before index j, or -1
  function LastFree(bs: seq<Block>, j: nat): (p: int)
    requires j <= |bs|
    ensures -1 <= p < j
    ensures p >= 0 ==> bs[p].free
    ensures forall i :: p < i < j ==> !bs[i].free
  {
    if j == 0 then -1 else if bs[j - 1].free then j - 1 else LastFree(bs, j - 1)
  }

  lemma {:induction false} FirstFreeAt(bs: seq<Block>, j: nat, k: nat)
    requires j <= k < |bs| && bs[k].free && forall i :: j <= i < k ==> !bs[i].free
    ensures FirstFree(bs[j..]) == bs[k].addr
    decreases k - j
  {
    assert bs[j..][0] == bs[j];
    if j < k {
      assert bs[j..][1..] == bs[j + 1..];
      FirstFreeAt(bs, j + 1, k);
    }
  }

  // skipping live blocks does not change what comes first
  lemma {:induction false} FirstFreeSkip(bs: seq<Block>, j: nat, k: nat)
    requires j <= k <= |bs| && forall i :: j <= i < k ==> !bs[i].free
    ensures FirstFree(bs[j..]) == FirstFree(bs[k..])
    decreases k - j
  {
    if j < k {
      assert bs[j..][1..] == bs[j + 1..];
      FirstFreeSkip(bs, j + 1, k);
    }
  }

  // index of the first free block from j on, or |bs|
  function NextFreeIndex(bs: seq<Block>, j: nat): (k: nat)
    requires j <= |bs|
    ensures j <= k <= |bs|
    ensures forall i :: j <= i < k ==> !bs[i].free
    ensures k < |bs| ==> bs[k].free
    ensures FirstFree(bs[j..]) == if k < |bs| then bs[k].addr else NULL
    decreases |bs| - j
  {
    if j == |bs| then j
    else
      assert bs[j..][1..] == bs[j + 1..];
      if bs[j].free then j else NextFreeIndex(bs, j + 1)
  }

  // ---- what malloc writes ----

  // what takes block k's place in the free list
  function Successor(bs: seq<Block>, k: nat, n: nat, next: seq<int>): int
    requires k < |bs| && bs[k].addr < |next|
  {
    if bs[k].size == n then next[bs[k].addr] else bs[k].addr + n
  }

  function TakeNext(bs: seq<Block>, k: nat, n: nat, next: seq<int>): (r: seq<int>)
    requires k < |bs| && InBuffer(bs, |next|) && bs[k].size >= n
    ensures |r| == |next|
  {
    var p, a := LastFree(bs, k), bs[k].addr;
    var linked := if p >= 0 then next[bs[p].addr := Successor(bs, k, n, next)] else next;
    var split := if bs[k].size == n then linked else linked[a + n := next[a]];
    split[a := NULL]
  }

  function TakeSize(bs: seq<Block>, k: nat, n: nat, size: seq<int>): (r: seq<int>)
    requires k < |bs| && bs[k].addr < |size| && (bs[k].size > n ==> bs[k].addr + n < |size|) && bs[k].size >= n
    ensures |r| == |size|
  {
    var a := bs[k].addr;
    (if bs[k].size == n then size else size[a + n := bs[k].size - n])[a := n]
  }

  // block i of the old layout lies apart from block k and from the rest split off it
  lemma Apart(bs: seq<Block>, total: nat, i: nat, k: nat)
    requires Tiles(bs, total) && i < |bs| && k < |bs| && i != k
    ensures bs[i].addr < bs[k].addr || bs[i].addr >= bs[k].End()
    ensures bs[i].addr != bs[k].addr
  {
    assert Joined(bs, total, i) && Joined(bs, total, k);
    if i < k { Ordered(bs, total, i, k); } else { Ordered(bs, total, k, i); }
  }

  // the first free block from index s on after block k was taken
  lemma TakeFirst(bs: seq<Block>, k: nat, n: nat, s: nat)
    requires k < |bs| && bs[k].free && 1 <= n <= bs[k].size && s <= k
    ensures FirstFree(Take(bs, k, n)[s..]) ==
            if LastFree(bs, k) >= s then FirstFree(bs[s..])
            else if bs[k].size == n then FirstFree(bs[k + 1..]) else bs[k].addr + n
  {
    hide LastFree, NextFreeIndex, FirstFree;
    var r := Take(bs, k, n);
    assert forall x :: 0 <= x < k ==> r[x] == bs[x];
    if LastFree(bs, k) >= s {
      var m := NextFreeIndex(bs, s);
      FirstFreeAt(r, s, m);
    } else {
      assert !r[k].free;
      FirstFreeSkip(r, s, k + 1);
      if bs[k].size == n {
        assert r[k + 1..] == bs[k + 1..];
      } else {
        assert r[k + 1] == Block(bs[k].addr + n, bs[k].size - n, true);
        FirstFreeAt(r, k + 1, k + 1);
      }
    }
  }

  lemma TakeHeaderBefore(bs: seq<Block>, total: nat, k: nat, n: nat, next: seq<int>, size: seq<int>, i: nat)
    requires Ok(bs, total) && |next| == |size| == total && Headers(bs, next, size)
    requires k < |bs| && bs[k].free && 1 <= n <= bs[k].size
    requires InBuffer(bs, total) && Inside(bs[k], total)
    requires i < k
    ensures HeaderAt(Take(bs, k, n), TakeNext(bs, k, n, next), TakeSize(bs, k, n, size), i)
  {
    hide LastFree, FirstFree, Headers, Tiles;
    var p := LastFree(bs, k);
    HeaderOf(bs, next, size, i);
    HeaderOf(bs, next, size, k);
    assert Take(bs, k, n)[i] == bs[i];
    Apart(bs, total, i, k);
    if p >= 0 && i != p { Apart(bs, total, i, p); }
    if bs[i].free { TakeFirst(bs, k, n, i + 1); }
  }

  lemma HeaderOf(bs: seq<Block>, next: seq<int>, size: seq<int>, i: nat)
    requires |next| == |size| && Headers(bs, next, size) && i < |bs|
    ensures HeaderAt(bs, next, size, i)
  {
  }

  lemma TakeHeaderBehind(bs: seq<Block>, total: nat, k: nat, n: nat, next: seq<int>, size: seq<int>, i: nat)
    requires Ok(bs, total) && |next| == |size| == total && Headers(bs, next, size)
    requires k < |bs| && bs[k].free && 1 <= n <= bs[k].size
    requires InBuffer(bs, total) && Inside(bs[k], total)
    requires k < i < |bs|
    ensures var r := Take(bs, k, n);
            HeaderAt(r, TakeNext(bs, k, n, next), TakeSize(bs, k, n, size), i + |r| - |bs|)
  {
    hide LastFree, FirstFree, Headers, Tiles;
    var r, p := Take(bs, k, n), LastFree(bs, k);
    var d := |r| - |bs|;
    HeaderOf(bs, next, size, i);
    assert r[i + d] == bs[i] && r[i + d + 1..] == bs[i + 1..];
    Apart(bs, total, i, k);
    if p >= 0 { Apart(bs, total, i, p); }
  }

  lemma TakeHeaders(bs: seq<Block>, total: nat, k: nat, n: nat, next: seq<int>, size: seq<int>)
    requires Ok(bs, total) && |next| == |size| == total && Headers(bs, next, size)
    requires k < |bs| && bs[k].free && 1 <= n <= bs[k].size
    requires InBuffer(bs, total) && Inside(bs[k], total)
    ensures Headers(Take(bs, k, n), TakeNext(bs, k, n, next), TakeSize(bs, k, n, size))
  {
    hide LastFree, FirstFree, Tiles;
    var r, nx, sz := Take(bs, k, n), TakeNext(bs, k, n, next), TakeSize(bs, k, n, size);
    var d := |r| - |bs|;
    HeaderOf(bs, next, size, k);
    forall i | 0 <= i < |r| ensures HeaderAt(r, nx, sz, i) {
      if i < k {
        TakeHeaderBefore(bs, total, k, n, next, size, i);
      } else if i == k {
        assert r[k] == Block(bs[k].addr, n, false);
      } else if i <= k + d {
        assert r[i] == Block(bs[k].addr + n, bs[k].size - n, true);
        assert r[i + 1..] == bs[k + 1..];
      } else {
        TakeHeaderBehind(bs, total, k, n, next, size, i - d);
      }
    }
  }

  lemma TakeHead(bs: seq<Block>, total: nat, k: nat, n: nat)
    requires Ok(bs, total) && k < |bs| && bs[k].free && 1 <= n <= bs[k].size
    ensures FirstFree(Take(bs, k, n)) ==
            if FirstFree(bs) != bs[k].addr then FirstFree(bs)
            else if bs[k].size == n then FirstFree(bs[k + 1..]) else bs[k].addr + n
  {
    var m := NextFreeIndex(bs, 0);
    assert bs[0..] == bs && Take(bs, k, n)[0..] == Take(bs, k, n);
    TakeFirst(bs, k, n, 0);
    if m != k { Apart(bs, total, m, k); }
  }

  lemma Addresses(bs: seq<Block>, total: nat)
    requires Tiles(bs, total)
    ensures InBuffer(bs, total)
  {
    forall i | 0 <= i < |bs| ensures Inside(bs[i], total) {
      WithinTotal(bs, total, i);
      assert Joined(bs, total, i);
    }
  }

  lemma HeadIsNext(bs: seq<Block>)
    ensures var m := NextFreeIndex(bs, 0); FirstFree(bs) == if m < |bs| then bs[m].addr else NULL
  {
    assert bs[0..] == bs;
  }

  // live blocks add nothing to the free memory
  lemma {:induction false} PayloadSkip(bs: seq<Block>, j: nat, k: nat)
    requires j <= k <= |bs| && forall i :: j <= i < k ==> !bs[i].free
    ensures FreePayload(bs[j..]) == FreePayload(bs[k..]) && MaxPayload(bs[j..]) == MaxPayload(bs[k..])
    decreases k - j
  {
    if j < k {
      assert bs[j..][1..] == bs[j + 1..];
      PayloadSkip(bs, j + 1, k);
    }
  }

  // one step along the free list: what the cells of its block m say
  lemma FreeStep(bs: seq<Block>, total: nat, next: seq<int>, size: seq<int>, m: nat)
    requires Tiles(bs, total) && |next| == |size| == total && Headers(bs, next, size) && m < |bs| && bs[m].free
    ensures Inside(bs[m], total) && size[bs[m].addr] == bs[m].size
    ensures LastFree(bs, NextFreeIndex(bs, m + 1)) == m
    ensures var f := NextFreeIndex(bs, m + 1);
            && next[bs[m].addr] == (if f < |bs| then bs[f].addr else NULL)
            && (f < |bs| ==> Inside(bs[f], total) && size[bs[f].addr] == bs[f].size)
    ensures var f := NextFreeIndex(bs, m + 1);
            && FreePayload(bs[m..]) == bs[m].size - 1 + FreePayload(bs[f..])
            && MaxPayload(bs[m..]) == var rest := MaxPayload(bs[f..]); if bs[m].size - 1 > rest then bs[m].size - 1 else rest
  {
    hide Tiles, NextFreeIndex, FirstFree, LastFree;
    Addresses(bs, total);
    HeaderOf(bs, next, size, m);
    var f := NextFreeIndex(bs, m + 1);
    if f < |bs| { HeaderOf(bs, next, size, f); }
    assert bs[m..][1..] == bs[m + 1..];
    PayloadSkip(bs, m + 1, f);
  }

  lemma {:induction false} LastFreeSkip(bs: seq<Block>, j: nat, k: nat)
    requires j <= k <= |bs| && forall i :: j <= i < k ==> !bs[i].free
    ensures LastFree(bs, k) == LastFree(bs, j)
    decreases k - j
  {
    if j < k { LastFreeSkip(bs, j, k - 1); }
  }

  lemma InOrder(bs: seq<Block>, total: nat, i: nat, k: nat)
    requires Tiles(bs, total) && i < k < |bs|
    ensures bs[i].addr < bs[i].End() <= bs[k].addr
  {
    assert Joined(bs, total, i);
    Ordered(bs, total, i, k);
  }

  // the free list starts before a live block exactly when there is a free block before it
  lemma HeadBefore(bs: seq<Block>, total: nat, k: nat)
    requires Tiles(bs, total) && k < |bs| && !bs[k].free && FirstFree(bs) != NULL
    ensures FirstFree(bs) < bs[k].addr <==> LastFree(bs, k) >= 0
    ensures LastFree(bs, k) < 0 ==> FirstFree(bs) == FirstFree(bs[k + 1..]) && FirstFree(bs) > bs[k].addr
  {
    var m := NextFreeIndex(bs, 0);
    HeadIsNext(bs);
    assert bs[0..] == bs;
    if m < k { InOrder(bs, total, m, k); } else { InOrder(bs, total, k, m); FirstFreeSkip(bs, 0, k + 1); }
  }

  // ---- what free writes ----

  function Marked(bs: seq<Block>, k: nat): (r: seq<Block>)
    requires k < |bs|
    ensures |r| == |bs|
  {
    bs[k := bs[k].(free := true)]
  }

  function MarkNext(bs: seq<Block>, k: nat, next: seq<int>): (r: seq<int>)
    requires k < |bs| && InBuffer(bs, |next|)
    ensures |r| == |next|
  {
    var p := LastFree(bs, k);
    (if p >= 0 then next[bs[p].addr := bs[k].addr] else next)[bs[k].addr := FirstFree(bs[k + 1..])]
  }

  // the first free block from index s <= k on, once k is free
  lemma MarkFirst(bs: seq<Block>, k: nat, s: nat)
    requires k < |bs| && !bs[k].free && s <= k
    ensures FirstFree(Marked(bs, k)[s..]) == if LastFree(bs, k) >= s then FirstFree(bs[s..]) else bs[k].addr
  {
    hide LastFree, NextFreeIndex, FirstFree;
    var r := Marked(bs, k);
    if LastFree(bs, k) >= s {
      var m := NextFreeIndex(bs, s);
      assert r[m] == bs[m];
      FirstFreeAt(r, s, m);
    } else {
      FirstFreeAt(r, s, k);
    }
  }

  lemma MarkHeaders(bs: seq<Block>, total: nat, k: nat, next: seq<int>, size: seq<int>)
    requires Tiles(bs, total) && |next| == |size| == total && Headers(bs, next, size) && InBuffer(bs, total)
    requires k < |bs| && !bs[k].free
    ensures Headers(Marked(bs, k), MarkNext(bs, k, next), size)
  {
    hide LastFree, FirstFree, Tiles;
    var r, p := Marked(bs, k), LastFree(bs, k);
    forall i | 0 <= i < |r| ensures HeaderAt(r, MarkNext(bs, k, next), size, i) {
      HeaderOf(bs, next, size, i);
      assert Inside(bs[i], total) && Inside(bs[k], total);
      if i != k { Apart(bs, total, i, k); }
      if p >= 0 && i != p { Apart(bs, total, i, p); }
      if i < k {
        MarkFirst(bs, k, i + 1);
      } else {
        assert r[i + 1..] == bs[i + 1..];
      }
    }
  }

  lemma OnlyFree(bs: seq<Block>, total: nat, k: nat, next: seq<int>, size: seq<int>)
    requires Tiles(bs, total) && |next| == |size| == total && Headers(bs, next, size)
    requires k < |bs| && !bs[k].free && FirstFree(bs) == NULL
    ensures Headers(Marked(bs, k), next, size) && FirstFree(Marked(bs, k)) == bs[k].addr && Release(bs, k) == Marked(bs, k)
  {
    var r := Marked(bs, k);
    assert r[0..] == r && bs[0..] == bs;
    FirstFreeAt(r, 0, k);
    FirstFreeSkip(bs, 0, k + 1);
    forall i | 0 <= i < |r| ensures HeaderAt(r, next, size, i) {
      HeaderOf(bs, next, size, i);
      if i >= k { assert r[i + 1..] == bs[i + 1..]; }
    }
  }

  // merging two free neighbours leaves the same block first
  lemma MergeFirst(bs: seq<Block>, i: nat, s: nat)
    requires Touching(bs, i) && s <= i
    ensures FirstFree(MergeAt(bs, i)[s..]) == FirstFree(bs[s..])
  {
    hide NextFreeIndex, FirstFree;
    var r, m := MergeAt(bs, i), NextFreeIndex(bs, s);
    assert forall x :: 0 <= x < i ==> r[x] == bs[x];
    FirstFreeAt(r, s, m);
  }

  lemma MergeHeaders(bs: seq<Block>, total: nat, i: nat, next: seq<int>, size: seq<int>)
    requires Tiles(bs, total) && |next| == |size| == total && Headers(bs, next, size) && InBuffer(bs, total)
    requires Touching(bs, i) && Inside(bs[i], total) && Inside(bs[i + 1], total)
    ensures Headers(MergeAt(bs, i), next[bs[i].addr := next[bs[i + 1].addr]], size[bs[i].addr := bs[i].size + bs[i + 1].size])
  {
    hide FirstFree, Tiles;
    var r := MergeAt(bs, i);
    var nx, sz := next[bs[i].addr := next[bs[i + 1].addr]], size[bs[i].addr := bs[i].size + bs[i + 1].size];
    HeaderOf(bs, next, size, i + 1);
    forall j | 0 <= j < |r| ensures HeaderAt(r, nx, sz, j) {
      if j < i {
        HeaderOf(bs, next, size, j);
        Apart(bs, total, j, i);
        MergeFirst(bs, i, j + 1);
      } else if j == i {
        assert r[i + 1..] == bs[i + 2..];
      } else {
        HeaderOf(bs, next, size, j + 1);
        Apart(bs, total, j + 1, i);
        assert r[j] == bs[j + 1] && r[j + 1..] == bs[j + 2..];
      }
    }
  }

  // no free block before index k has n units
  ghost predicate TooSmall(bs: seq<Block>, n: nat, k: nat)
    requires k <= |bs|
  {
    forall i :: 0 <= i < k ==> bs[i].free ==> bs[i].size < n
  }

  lemma FreeStart(bs: seq<Block>, total: nat, next: seq<int>, size: seq<int>, n: nat)
    requires Tiles(bs, total) && |next| == |size| == total && Headers(bs, next, size)
    ensures var m := NextFreeIndex(bs, 0);
            && (m < |bs| ==> Inside(bs[m], total) && size[bs[m].addr] == bs[m].size)
            && TooSmall(bs, n, m) && LastFree(bs, m) == -1
            && FirstFree(bs) == (if m < |bs| then bs[m].addr else NULL)
            && FreePayload(bs) == FreePayload(bs[m..]) && MaxPayload(bs) == MaxPayload(bs[m..])
    ensures FreePayload(bs[|bs|..]) == 0 == MaxPayload(bs[|bs|..])
  {
    hide FirstFree, NextFreeIndex, Tiles;
    var m := NextFreeIndex(bs, 0);
    Addresses(bs, total);
    if m < |bs| { HeaderOf(bs, next, size, m); }
    assert bs[0..] == bs;
    PayloadSkip(bs, 0, m);
  }

  lemma SmallStep(bs: seq<Block>, n: nat, m: nat)
    requires m < |bs| && TooSmall(bs, n, m) && bs[m].size < n
    ensures TooSmall(bs, n, NextFreeIndex(bs, m + 1))
  {
  }

  lemma FitFound(bs: seq<Block>, n: nat, k: nat)
    requires k <= |bs| && TooSmall(bs, n, k) && (k < |bs| ==> bs[k].free && bs[k].size >= n)
    ensures FirstFit(bs, n) == k
  {
    hide FirstFit;
  }

  // blocks lie in address order
  lemma Compare(bs: seq<Block>, total: nat, i: nat, k: nat)
    requires Tiles(bs, total) && i < |bs| && k < |bs|
    ensures i < k <==> bs[i].addr < bs[k].addr
    ensures k < i <==> bs[k].addr < bs[i].addr
  {
    if i < k { InOrder(bs, total, i, k); } else if k < i { InOrder(bs, total, k, i); }
  }

  // the free blocks m and LastFree(bs, m) lie on both sides of the live block k
  lemma PlaceFound(bs: seq<Block>, k: nat, m: nat)
    requires m <= |bs| && LastFree(bs, m) < k < m && (m < |bs| ==> bs[m].free)
    ensures LastFree(bs, k) == LastFree(bs, m)
    ensures FirstFree(bs[k + 1..]) == if m < |bs| then bs[m].addr else NULL
  {
    hide FirstFree;
    LastFreeSkip(bs, k, m);
    assert NextFreeIndex(bs, k + 1) == m;
  }

  class Variable {
    const total: nat
    const next: array<int>
    const size: array<int>
    var head: int
    ghost var layout: seq<Block>

    /** The headers say what the layout says, and the layout tiles the buffer. */
    ghost predicate Linked()
      reads this, next, size
    {
      && next != size && next.Length == size.Length == total > 0
      && Tiles(layout, total) && head == FirstFree(layout)
      && Headers(layout, next[..], size[..])
    }

    ghost predicate Valid()
      reads this, next, size
    {
      Linked() && Ok(layout, total)
    }

    constructor (nrBlocks: nat, blocksize: nat)
      requires nrBlocks > 0
      ensures Valid() && fresh(this) && fresh(next) && fresh(size)
      ensures total == nrBlocks * RequestUnits(blocksize) && layout == Initial(total)
    {
      var normBlocksize := blocksize / HEADER_SIZE + (if blocksize % HEADER_SIZE != 0 then 1 else 0);
      var toAlloc := nrBlocks * (normBlocksize + 1);
      total := toAlloc;
      next := new int[toAlloc];
      size := new int[toAlloc];
      head := 0;
      layout := [Block(0, toAlloc, true)];
      new;
      assert total > 0 by {
        assert total == (nrBlocks - 1) * (normBlocksize + 1) + normBlocksize + 1;
        assert (nrBlocks - 1) * (normBlocksize + 1) >= 0;
      }
      next[0] := NULL;
      size[0] := total;
      assert Joined(layout, total, 0) && HeaderAt(layout, next[..], size[..], 0);
    }

    /** Units strictly inside a live block are the caller's: whatever is stored there, the pool stays valid. */
    method UserWrite(ghost k: nat, unit: nat, nextCell: int, sizeCell: int)
      requires Valid() && k < |layout| && !layout[k].free && layout[k].addr < unit < layout[k].End()
      modifies next, size
      ensures Valid() && layout == old(layout) && head == old(head)
    {
      WithinTotal(layout, total, k);
      next[unit] := nextCell;
      size[unit] := sizeCell;
      forall i | 0 <= i < |layout| ensures HeaderAt(layout, next[..], size[..], i) {
        assert old(HeaderAt(layout, next[..], size[..], i));
        assert Joined(layout, total, i);
        if i < k { Ordered(layout, total, i, k); }
        if k < i { Ordered(layout, total, k, i); }
      }
    }

    // what TakeBlock reads and writes, and what the written cells then say
    lemma Taking(bs: seq<Block>, k: nat, n: nat, nx: seq<int>, sz: seq<int>)
      requires Ok(bs, total) && |nx| == |sz| == total && Headers(bs, nx, sz)
      requires k < |bs| && bs[k].free && 1 <= n <= bs[k].size
      ensures InBuffer(bs, total) && Inside(bs[k], total) && sz[bs[k].addr] == bs[k].size
      ensures nx[bs[k].addr] == FirstFree(bs[k + 1..])
      ensures var p := LastFree(bs, k); p >= 0 ==> Inside(bs[p], total) && bs[p].addr != bs[k].addr
      ensures var r := Take(bs, k, n); Ok(r, total) && Headers(r, TakeNext(bs, k, n, nx), TakeSize(bs, k, n, sz))
      ensures FirstFree(Take(bs, k, n)) ==
              if FirstFree(bs) != bs[k].addr then FirstFree(bs)
              else if bs[k].size == n then nx[bs[k].addr] else bs[k].addr + n
    {
      hide Take, Headers, Tiles, Coalesced, FirstFree, LastFree;
      Addresses(bs, total);
      assert Inside(bs[k], total);
      HeaderOf(bs, nx, sz, k);
      if LastFree(bs, k) >= 0 {
        Apart(bs, total, LastFree(bs, k), k);
        assert Inside(bs[LastFree(bs, k)], total);
      }
      TakeHeaders(bs, total, k, n, nx, sz);
      TakeHead(bs, total, k, n);
      TakeOk(bs, total, k, n);
    }

    // what malloc does once it has found a block: splice it out of the free list, splitting it if it is too large
    method TakeBlock(current: nat, previous: int, n: nat, ghost k: nat)
      requires Valid() && k < |layout| && layout[k].free && 1 <= n <= layout[k].size && current == layout[k].addr
      requires previous == if LastFree(layout, k) < 0 then NULL else layout[LastFree(layout, k)].addr
      modifies this`head, this`layout, next, size
      ensures Valid() && layout == Take(old(layout), k, n)
    {
      hide Take, Headers, Tiles, Coalesced, FirstFree, LastFree, Link, Joined, InBuffer;
      ghost var bs, nx, sz := layout, next[..], size[..];
      Taking(bs, k, n, nx, sz);
      if size[current] == n {
        if previous != NULL { next[previous] := next[current]; }
      } else {
        var newBlock := current + n;
        if previous != NULL { next[previous] := newBlock; }
        next[newBlock] := next[current];
        size[newBlock] := size[current] - n;
        next[current] := newBlock;
      }
      if current == head {
        head := next[current];
      }
      size[current] := n;
      next[current] := NULL;
      layout := Take(bs, k, n);
      assert next[..] == TakeNext(bs, k, n, nx);
      assert size[..] == TakeSize(bs, k, n, sz);
    }

    // the walk along the free list to the first block of at least n units, with the free block before it
    method FindFit(n: nat) returns (current: int, previous: int, ghost k: nat)
      requires Valid()
      ensures k == FirstFit(layout, n)
      ensures current == if FirstFit(layout, n) < |layout| then layout[FirstFit(layout, n)].addr else NULL
      ensures var p := LastFree(layout, FirstFit(layout, n)); previous == if p < 0 then NULL else layout[p].addr
    {
      hide Tiles, Coalesced, FirstFree, Link, NextFreeIndex, FirstFit, LastFree, Headers, InBuffer, TooSmall;
      current, previous := head, NULL;
      ghost var bs := layout;
      k := NextFreeIndex(bs, 0);
      FreeStart(bs, total, next[..], size[..], n);
      while current != NULL && size[current] < n
        invariant k <= |bs| && (k < |bs| ==> bs[k].free && Inside(bs[k], total)) && TooSmall(bs, n, k)
        invariant current == if k < |bs| then bs[k].addr else NULL
        invariant previous == if LastFree(bs, k) < 0 then NULL else bs[LastFree(bs, k)].addr
        invariant k < |bs| ==> size[current] == bs[k].size
        decreases |bs| - k
      {
        FreeStep(bs, total, next[..], size[..], k);
        SmallStep(bs, n, k);
        previous := current;
        current := next[current];
        k := NextFreeIndex(bs, k + 1);
      }
      FitFound(bs, n, k);
    }

    /**
      First fit. Answers the unit behind the block's header, or null exactly when no free block is large enough;
      the block is split when it is larger than needed.
     */
    method Malloc(bytes: nat) returns (ptr: int)
      requires Valid()
      modifies this, next, size
      ensures Valid()
      ensures ptr != NULL <==> 0 < bytes <= MaxPayload(old(layout)) * HEADER_SIZE
      ensures bytes == 0 ==> ptr == NULL && layout == old(layout)
      ensures bytes > 0 ==>
        var n, k := RequestUnits(bytes), FirstFit(old(layout), RequestUnits(bytes));
        && layout == Alloc(old(layout), n)
        && ptr == if k < |old(layout)| then old(layout)[k].addr + 1 else NULL
    {
      if bytes == 0 { return NULL; }
      var n := bytes / HEADER_SIZE + (if bytes % HEADER_SIZE != 0 then 1 else 0) + 1;
      MallocSucceedsIff(layout, total, bytes);
      assert n == RequestUnits(bytes);
      hide Tiles, MaxPayload, FirstFit, RequestUnits, Coalesced;
      var current, previous, k := FindFit(n);
      if current == NULL { return NULL; }
      TakeBlock(current, previous, n, k);
      ptr := current + 1;
    }

    // the free blocks around a live block k: the last one before it (or the buffer's start) and the first one behind it
    method FindPlace(toFree: nat, ghost k: nat) returns (previous: nat, following: int)
      requires Valid() && k < |layout| && !layout[k].free && layout[k].addr == toFree && head != NULL
      ensures previous == if LastFree(layout, k) < 0 then 0 else layout[LastFree(layout, k)].addr
      ensures following == FirstFree(layout[k + 1..])
    {
      hide Tiles, Coalesced, FirstFree, Link, NextFreeIndex, LastFree, Headers, InBuffer, TooSmall;
      previous, following := 0, head;
      ghost var bs := layout;
      ghost var m := NextFreeIndex(bs, 0);
      FreeStart(bs, total, next[..], size[..], 0);
      while !(following == NULL || toFree < following)
        invariant m <= |bs| && (m < |bs| ==> bs[m].free) && LastFree(bs, m) < k
        invariant following == if m < |bs| then bs[m].addr else NULL
        invariant previous == if LastFree(bs, m) < 0 then 0 else bs[LastFree(bs, m)].addr
        decreases |bs| - m
      {
        FreeStep(bs, total, next[..], size[..], m);
        Compare(bs, total, m, k);
        previous := following;
        following := next[following];
        m := NextFreeIndex(bs, m + 1);
      }
      if m < |bs| {
        Compare(bs, total, m, k);
        assert k < m;
      }
      PlaceFound(bs, k, m);
    }

    // links block k into the free list, in address order
    method Insert(toFree: nat, previous: nat, following: int, ghost k: nat)
      requires Valid() && k < |layout| && !layout[k].free && layout[k].addr == toFree && head != NULL
      requires previous == if LastFree(layout, k) < 0 then 0 else layout[LastFree(layout, k)].addr
      requires following == FirstFree(layout[k + 1..])
      modifies this`head, this`layout, next
      ensures Linked() && layout == Marked(old(layout), k)
      ensures head == toFree <==> LastFree(old(layout), k) < 0
      ensures LastFree(old(layout), k) >= 0 ==> head < toFree
    {
      ghost var bs, nx, sz, p := layout, next[..], size[..], LastFree(layout, k);
      Addresses(bs, total);
      MarkHeaders(bs, total, k, nx, sz);
      MarkTiles(bs, total, k);
      MarkFirst(bs, k, 0);
      HeadBefore(bs, total, k);
      assert Inside(bs[k], total) && (p >= 0 ==> Inside(bs[p], total));
      if p >= 0 { Apart(bs, total, p, k); }
      hide Tiles, Coalesced, Headers, FirstFree, LastFree;
      assert bs[0..] == bs && Marked(bs, k)[0..] == Marked(bs, k);
      if toFree < head {
        next[toFree] := head;
        head := toFree;
      } else {
        next[previous] := toFree;
        next[toFree] := following;
      }
      layout := Marked(bs, k);
      assert next[..] == MarkNext(bs, k, nx);
    }

    // the block at `second` is swallowed by the free block right before it
    method MergeBlocks(first: nat, second: nat, ghost i: nat)
      requires Linked() && Touching(layout, i) && layout[i].addr == first && layout[i + 1].addr == second
      modifies this`layout, next, size
      ensures Linked() && layout == MergeAt(old(layout), i) && head == old(head)
    {
      ghost var bs, nx, sz := layout, next[..], size[..];
      Addresses(bs, total);
      assert Inside(bs[i], total) && Inside(bs[i + 1], total);
      HeaderOf(bs, nx, sz, i);
      HeaderOf(bs, nx, sz, i + 1);
      MergeHeaders(bs, total, i, nx, sz);
      MergeTiles(bs, total, i);
      MergeFirst(bs, i, 0);
      assert bs[0..] == bs && MergeAt(bs, i)[0..] == MergeAt(bs, i);
      hide Tiles, Headers, FirstFree, MergeAt;
      size[first] := size[first] + size[second];
      next[first] := next[second];
      layout := MergeAt(bs, i);
      assert next[..] == nx[first := nx[second]];
      assert size[..] == sz[first := bs[i].size + bs[i + 1].size];
    }

    // a free block ends where the next free one starts exactly when they are neighbours
    lemma NeighboursTouch(bs: seq<Block>, i: nat, m: nat)
      requires Tiles(bs, total) && i < m < |bs|
      ensures bs[i].addr + bs[i].size == bs[m].addr <==> m == i + 1
    {
      assert Joined(bs, total, i);
      if m > i + 1 { InOrder(bs, total, i + 1, m); }
    }

    // steps 2 and 3 of free: merge with the free block before, then with the one behind
    method MergeAround(toFree: nat, previous: nat, following: int, ghost bs: seq<Block>, ghost k: nat)
      requires Linked() && k < |bs| && !bs[k].free && bs[k].addr == toFree && layout == Marked(bs, k)
      requires previous == if LastFree(bs, k) < 0 then 0 else bs[LastFree(bs, k)].addr
      requires following == FirstFree(bs[k + 1..])
      requires head == toFree <==> LastFree(bs, k) < 0
      requires LastFree(bs, k) >= 0 ==> head < toFree
      modifies this`layout, next, size
      ensures Linked() && layout == Release(bs, k)
    {
      hide FirstFree, LastFree, Tiles, Headers;
      ghost var p, i := LastFree(bs, k), k;
      var start := toFree;
      if p >= 0 {
        NeighboursTouch(layout, p, k);
        HeaderOf(layout, next[..], size[..], p);
        Addresses(layout, total);
        assert Inside(layout[p], total);
      }
      if toFree > head && toFree == previous + size[previous] {
        MergeBlocks(previous, toFree, p);
        start := previous;
        i := p;
      }
      MergeBehind(start, following, i);
    }

    method MergeBehind(start: nat, following: int, ghost i: nat)
      requires Linked() && i < |layout| && layout[i].free && layout[i].addr == start
      requires following == FirstFree(layout[i + 1..])
      modifies this`layout, next, size
      ensures Linked() && layout == MergeIf(old(layout), i)
    {
      hide FirstFree, LastFree, Tiles, Headers, NextFreeIndex;
      ghost var m := NextFreeIndex(layout, i + 1);
      if m < |layout| { NeighboursTouch(layout, i, m); }
      HeaderOf(layout, next[..], size[..], i);
      Addresses(layout, total);
      assert Inside(layout[i], total);
      if start + size[start] == following {
        MergeBlocks(start, following, i);
      }
    }

    /** Gives the block back: into the free list in address order, merged with the free blocks on both sides. */
    method Free(ptr: int)
      requires Valid()
      requires ptr != NULL ==> ptr >= 1 && LiveIndex(layout, ptr - 1) < |layout|
      modifies this, next, size
      ensures Valid()
      ensures layout == if ptr == NULL then old(layout) else Release(old(layout), LiveIndex(old(layout), ptr - 1))
    {
      if ptr == NULL { return; }
      var toFree := ptr - 1;
      ghost var bs, k := layout, LiveIndex(layout, toFree);
      ReleaseOk(bs, total, k);
      if head == NULL {
        // toFree is the only free block, and its next cell has been null since malloc
        OnlyFree(bs, total, k, next[..], size[..]);
        head := toFree;
        layout := Marked(bs, k);
        return;
      }
      var previous, following := FindPlace(toFree, k);
      Insert(toFree, previous, following, k);
      MergeAround(toFree, previous, following, bs, k);
    }

    method FreeMemory() returns (bytes: nat)
      requires Valid()
      ensures bytes == FreePayload(layout) * HEADER_SIZE
    {
      hide Tiles, Coalesced, FirstFree, Link, NextFreeIndex, FreePayload, MaxPayload, Headers, InBuffer, LastFree, TooSmall;
      var sum, current := 0, head;
      ghost var bs := layout;
      ghost var m := NextFreeIndex(bs, 0);
      FreeStart(bs, total, next[..], size[..], 0);
      while current != NULL
        invariant m <= |bs| && (m < |bs| ==> bs[m].free)
        invariant current == if m < |bs| then bs[m].addr else NULL
        invariant sum + FreePayload(bs[m..]) == FreePayload(bs)
        decreases |bs| - m
      {
        FreeStep(bs, total, next[..], size[..], m);
        m := NextFreeIndex(bs, m + 1);
        sum := sum + size[current] - 1;
        current := next[current];
      }
      bytes := sum * HEADER_SIZE;
    }

    /** The largest request that can succeed: see MallocSucceedsIff. */
    method MaxBlockSize() returns (bytes: nat)
      requires Valid()
      ensures bytes == MaxPayload(layout) * HEADER_SIZE
    {
      hide Tiles, Coalesced, FirstFree, Link, NextFreeIndex, FreePayload, MaxPayload, Headers, InBuffer, LastFree, TooSmall;
      var best, current := 0, head;
      ghost var bs := layout;
      ghost var m := NextFreeIndex(bs, 0);
      FreeStart(bs, total, next[..], size[..], 0);
      while current != NULL
        invariant m <= |bs| && (m < |bs| ==> bs[m].free)
        invariant current == if m < |bs| then bs[m].addr else NULL
        invariant best >= 0 && MaxPayload(bs) == var rest := MaxPayload(bs[m..]); if best > rest then best else rest
        decreases |bs| - m
      {
        FreeStep(bs, total, next[..], size[..], m);
        m := NextFreeIndex(bs, m + 1);
        best := if size[current] - 1 > best then size[current] - 1 else best;
        current := next[current];
      }
      bytes := best * HEADER_SIZE;
    }
  }
}
