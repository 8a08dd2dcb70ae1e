/**
  The variable-size memory pool on values: the buffer as the list of its blocks in address order, in units of
  one block header. First fit with splitting, and release with merging on both sides.
 */
module PoolSpec {
  const NULL := -1
  const HEADER_SIZE := 8  // sizeof(BlockHeader) with 32-bit pointers

  datatype Block = Block(addr: nat, size: nat, free: bool)
  {
    function End(): nat { addr + size }
  }

  // block i is not empty and ends where the next one, or the buffer's end, is
  predicate Joined(bs: seq<Block>, total: nat, i: nat)
    requires i < |bs|
  {
    bs[i].size >= 1 && bs[i].End() == if i + 1 < |bs| then bs[i + 1].addr else total
  }

  /** The blocks tile [0, total) without gap or overlap. */
  predicate Tiles(bs: seq<Block>, total: nat) {
    && (forall i :: 0 <= i < |bs| ==> Joined(bs, total, i))
    && (if bs == [] then total == 0 else bs[0].addr == 0)
  }

  predicate Touching(bs: seq<Block>, i: int) {
    0 <= i < |bs| - 1 && bs[i].free && bs[i + 1].free
  }

  predicate Coalesced(bs: seq<Block>) {
    forall i :: 0 <= i < |bs| - 1 ==> !Touching(bs, i)
  }

  /** The allocator invariant. */
  predicate Ok(bs: seq<Block>, total: nat) {
    Tiles(bs, total) && Coalesced(bs)
  }

  lemma {:induction false} Ordered(bs: seq<Block>, total: nat, i: nat, j: nat)
    requires Tiles(bs, total) && i < j < |bs|
    ensures bs[i].End() <= bs[j].addr
    decreases j - i
  {
    assert Joined(bs, total, j - 1);
    if i + 1 < j {
      Ordered(bs, total, i, j - 1);
    }
  }

  lemma {:induction false} WithinTotal(bs: seq<Block>, total: nat, i: nat)
    requires Tiles(bs, total) && i < |bs|
    ensures bs[i].End() <= total
  {
    assert Joined(bs, total, |bs| - 1);
    if i + 1 < |bs| {
      Ordered(bs, total, i, |bs| - 1);
    }
  }

  /** Address of the first free block, or NULL. */
  function FirstFree(bs: seq<Block>): (a: int)
    ensures a == NULL <==> forall i :: 0 <= i < |bs| ==> !bs[i].free
    ensures a >= NULL
  {
    if bs == [] then NULL else if bs[0].free then bs[0].addr else FirstFree(bs[1..])
  }

  lemma {:induction false} FirstFreeAppend(a: seq<Block>, b: seq<Block>)
    ensures FirstFree(a + b) == if FirstFree(a) != NULL then FirstFree(a) else FirstFree(b)
  {
    if a == [] {
      assert a + b == b;
    } else {
      assert (a + b)[1..] == a[1..] + b;
      FirstFreeAppend(a[1..], b);
    }
  }

  /** Index of the first free block of at least n units, or |bs|. */
  function FirstFit(bs: seq<Block>, n: nat): (k: nat)
    ensures k <= |bs|
    ensures k < |bs| ==> bs[k].free && bs[k].size >= n
    ensures forall i :: 0 <= i < k ==> bs[i].free ==> bs[i].size < n
  {
    if bs == [] then 0 else if bs[0].free && bs[0].size >= n then 0 else 1 + FirstFit(bs[1..], n)
  }

  // the block taken, and the free rest of it if there is one
  function Split(b: Block, n: nat): (r: seq<Block>)
    requires b.size >= n
  {
    [Block(b.addr, n, false)] + if b.size == n then [] else [Block(b.addr + n, b.size - n, true)]
  }

  /** The layout after taking n units out of block k. */
  function Take(bs: seq<Block>, k: nat, n: nat): seq<Block>
    requires k < |bs| && bs[k].size >= n
  {
    bs[..k] + Split(bs[k], n) + bs[k + 1..]
  }

  /** The layout after malloc of n units; unchanged when nothing fits. */
  function Alloc(bs: seq<Block>, n: nat): seq<Block> {
    var k := FirstFit(bs, n);
    if k < |bs| then Take(bs, k, n) else bs
  }

  // blocks i and i+1 as one free block
  function MergeAt(bs: seq<Block>, i: nat): seq<Block>
    requires i + 1 < |bs|
  {
    bs[..i] + [Block(bs[i].addr, bs[i].size + bs[i + 1].size, true)] + bs[i + 2..]
  }

  function MergeIf(bs: seq<Block>, i: int): seq<Block> {
    if Touching(bs, i) then MergeAt(bs, i) else bs
  }

  /** The layout after releasing block k: marked free, merged with a free block before it, then with one behind. */
  function Release(bs: seq<Block>, k: nat): seq<Block>
    requires k < |bs|
  {
    var marked := bs[k := bs[k].(free := true)];
    if k > 0 && bs[k - 1].free then MergeIf(MergeAt(marked, k - 1), k - 1) else MergeIf(marked, k)
  }

  // ---- the invariant is kept ----

  lemma TakeOk(bs: seq<Block>, total: nat, k: nat, n: nat)
    requires Ok(bs, total) && k < |bs| && bs[k].free && 1 <= n <= bs[k].size
    ensures Ok(Take(bs, k, n), total)
  {
    var r := Take(bs, k, n);
    var d := |r| - |bs|;
    assert forall i :: 0 <= i < k ==> r[i] == bs[i];
    assert forall i :: k + 1 + d <= i < |r| ==> r[i] == bs[i - d];
    assert Joined(bs, total, k);
    forall i | 0 <= i < |r| ensures Joined(r, total, i) {
      assert i < k ==> Joined(bs, total, i);
      assert i > k + d ==> Joined(bs, total, i - d);
    }
    forall i | 0 <= i < |r| - 1 ensures !Touching(r, i) {
      assert !Touching(bs, if i < k then i else if i < k + 1 + d then k else i - d);
    }
  }

  lemma MergeTiles(bs: seq<Block>, total: nat, i: nat)
    requires Tiles(bs, total) && i + 1 < |bs|
    ensures Tiles(MergeAt(bs, i), total)
  {
    var r := MergeAt(bs, i);
    assert Joined(bs, total, i) && Joined(bs, total, i + 1);
    forall j | 0 <= j < |r| ensures Joined(r, total, j) {
      assert Joined(bs, total, if j < i then j else j + 1);
    }
  }

  // merging two free blocks creates no new pair of touching ones
  lemma MergePairs(bs: seq<Block>, i: nat)
    requires Touching(bs, i)
    ensures forall j :: Touching(MergeAt(bs, i), j) ==> Touching(bs, if j < i then j else j + 1)
  {
    var r := MergeAt(bs, i);
    assert forall j :: 0 <= j < i ==> r[j] == bs[j];
    assert forall j :: i + 1 <= j < |r| ==> r[j] == bs[j + 1];
  }

  lemma MarkTiles(bs: seq<Block>, total: nat, k: nat)
    requires Tiles(bs, total) && k < |bs|
    ensures Tiles(bs[k := bs[k].(free := true)], total)
  {
    var marked := bs[k := bs[k].(free := true)];
    forall i | 0 <= i < |bs| ensures Joined(marked, total, i) {
      assert Joined(bs, total, i);
    }
  }

  lemma ReleaseOk(bs: seq<Block>, total: nat, k: nat)
    requires Ok(bs, total) && k < |bs| && !bs[k].free
    ensures Ok(Release(bs, k), total)
  {
    var marked := bs[k := bs[k].(free := true)];
    MarkTiles(bs, total, k);
    forall j | 0 <= j < |bs| - 1 && j != k - 1 && j != k ensures !Touching(marked, j) {
      assert !Touching(bs, j);
    }
    hide MergeAt, Tiles;
    if k > 0 && bs[k - 1].free {
      MergeTiles(marked, total, k - 1);
      MergePairs(marked, k - 1);
      var once := MergeAt(marked, k - 1);
      if Touching(once, k - 1) {
        MergeTiles(once, total, k - 1);
        MergePairs(once, k - 1);
      }
    } else if Touching(marked, k) {
      MergeTiles(marked, total, k);
      MergePairs(marked, k);
    }
  }
}
