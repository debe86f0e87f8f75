/** The min/max segment tree of the passive fill index (cpp/research/passive_queue.cpp:57-126).
    The tree answers "which is the first trade in [begin, end) printed strictly beyond the quote?".
    Leaves past the last trade hold the identity of the extreme, a value no quote can be beaten by. */
module ExtremeTrees {

  const INT64_MAX: int := 0x7FFF_FFFF_FFFF_FFFF
  const INT64_MIN: int := -0x8000_0000_0000_0000

  predicate IsInt64(x: int) {
    INT64_MIN <= x <= INT64_MAX
  }

  /** A sign and 63 bits. */
  lemma Int64Is(x: int)
    ensures IsInt64(x) <==> -0x8000_0000_0000_0000 <= x < 0x8000_0000_0000_0000
  {
  }

  function Max(a: int, b: int): int { if a < b then b else a }

  function Min(a: int, b: int): int { if a < b then a else b }

  /** `value` is strictly beyond `quote` as its aggressor sees it: below it for a resting bid
      (`findLess`), above it for a resting ask. */
  predicate Beyond(findLess: bool, value: int, quote: int) {
    if findLess then value < quote else value > quote
  }

  function Identity(findLess: bool): int {
    if findLess then INT64_MAX else INT64_MIN
  }

  function Extreme(findLess: bool, a: int, b: int): int {
    if findLess then Min(a, b) else Max(a, b)
  }

  /** The linear scan the tree replaces: the least index of [begin, end) printed beyond the quote, or
      the number of trades. */
  function FirstBeyond(prices: seq<int>, findLess: bool, begin: nat, end: int, quote: int): (r: nat)
    decreases end - begin
  {
    if begin >= end || begin >= |prices| then |prices|
    else if Beyond(findLess, prices[begin], quote) then begin
    else FirstBeyond(prices, findLess, begin + 1, end, quote)
  }

  lemma {:induction false} FirstBeyondIsLeast(prices: seq<int>, findLess: bool, begin: nat, end: int, quote: int)
    ensures var r := FirstBeyond(prices, findLess, begin, end, quote);
            && (r == |prices| || (begin <= r < end && r < |prices| && Beyond(findLess, prices[r], quote)))
            && (forall i :: begin <= i < end && i < r ==> !Beyond(findLess, prices[i], quote))
    decreases end - begin
  {
    if begin < end && begin < |prices| && !Beyond(findLess, prices[begin], quote) {
      FirstBeyondIsLeast(prices, findLess, begin + 1, end, quote);
    }
  }

  lemma {:induction false} FirstBeyondSplit(prices: seq<int>, findLess: bool, begin: nat, middle: nat, end: int, quote: int)
    requires begin <= middle <= end
    ensures FirstBeyond(prices, findLess, begin, end, quote)
         == var left := FirstBeyond(prices, findLess, begin, middle, quote);
            if left != |prices| then left else FirstBeyond(prices, findLess, middle, end, quote)
    decreases middle - begin
  {
    if begin < middle && begin < |prices| {
      FirstBeyondSplit(prices, findLess, begin + 1, middle, end, quote);
    }
  }

  function Pow2(h: nat): (p: nat)
    ensures p >= 1
  {
    if h == 0 then 1 else 2 * Pow2(h - 1)
  }

  /** The array together with what it was built from. Node 1 is the root, the children of k are 2k and
      2k+1, and leaf i sits at 2^levels + i. */
  datatype Heap = Heap(tree: seq<int>, ghost levels: nat, ghost prices: seq<int>, findLess: bool) {

    ghost function Leaf(i: nat): int {
      if i < |prices| then prices[i] else Identity(findLess)
    }

    ghost predicate Combines(k: nat)
      requires 2 * k + 1 < |tree|
    {
      tree[k] == Extreme(findLess, tree[2 * k], tree[2 * k + 1])
    }

    ghost predicate Built() {
      && |tree| == 2 * Pow2(levels)
      && |prices| <= Pow2(levels)
      && (forall k | Pow2(levels) <= k < |tree| :: tree[k] == Leaf(k - Pow2(levels)))
      && (forall k | 1 <= k < Pow2(levels) :: Combines(k))
    }

    /** `node` is the subtree of height h whose leaves are [begin, begin + 2^h). */
    ghost predicate Covers(node: nat, begin: nat, h: nat) {
      && 1 <= node < 2 * Pow2(levels)
      && Leftmost(node, h) == Pow2(levels) + begin
      && begin + Pow2(h) <= Pow2(levels)
    }
  }

  /** The heap position of the leftmost leaf below `node`, h levels down. */
  ghost function Leftmost(node: nat, h: nat): nat
    decreases h
  {
    if h == 0 then node else Leftmost(2 * node, h - 1)
  }

  lemma {:induction false} LeftmostNext(node: nat, h: nat)
    ensures Leftmost(node + 1, h) == Leftmost(node, h) + Pow2(h)
    ensures Leftmost(node, h) >= node && (h > 0 ==> Leftmost(node, h) >= 2 * node)
    decreases h
  {
    if h > 0 {
      LeftmostNext(2 * node, h - 1);
      LeftmostNext(2 * node + 1, h - 1);
    }
  }

  lemma {:induction false} LeftmostRoot(node: nat, h: nat)
    ensures Leftmost(node, h) == node * Pow2(h)
    decreases h
  {
    if h > 0 {
      LeftmostRoot(2 * node, h - 1);
      assert 2 * node * Pow2(h - 1) == node * (2 * Pow2(h - 1));
    }
  }

  lemma ChildrenCover(t: Heap, node: nat, begin: nat, h: nat)
    requires t.Covers(node, begin, h) && h > 0
    ensures node < Pow2(t.levels) && Pow2(h) == 2 * Pow2(h - 1)
    ensures t.Covers(2 * node, begin, h - 1)
    ensures t.Covers(2 * node + 1, begin + Pow2(h - 1), h - 1)
  {
    LeftmostNext(node, h);
    LeftmostNext(2 * node, h - 1);
  }

  /** A node's stored extreme is beyond the quote exactly when one of the trades below it is; padding
      leaves never are, whatever the quote. */
  lemma {:induction false} NodeBeyondIffLeafBeyond(t: Heap, node: nat, begin: nat, h: nat, quote: int)
    requires t.Built() && t.Covers(node, begin, h) && IsInt64(quote)
    ensures Beyond(t.findLess, t.tree[node], quote)
       <==> FirstBeyond(t.prices, t.findLess, begin, begin + Pow2(h), quote) != |t.prices|
    decreases h
  {
    if h == 0 {
      assert t.tree[node] == t.Leaf(begin);
    } else {
      ChildrenCover(t, node, begin, h);
      assert t.Combines(node);
      var middle := begin + Pow2(h - 1);
      NodeBeyondIffLeafBeyond(t, 2 * node, begin, h - 1, quote);
      NodeBeyondIffLeafBeyond(t, 2 * node + 1, middle, h - 1, quote);
      FirstBeyondSplit(t.prices, t.findLess, begin, middle, begin + Pow2(h), quote);
    }
  }

  /** What a search below a node must return: the scan over the part of the query the node covers. */
  ghost function ScanBelow(t: Heap, nodeBegin: nat, h: nat, queryBegin: nat, queryEnd: nat, quote: int): nat {
    FirstBeyond(t.prices, t.findLess, Max(nodeBegin, queryBegin), Min(nodeBegin + Pow2(h), queryEnd), quote)
  }

  lemma ScanBelowSplit(t: Heap, begin: nat, h: nat, queryBegin: nat, queryEnd: nat, quote: int)
    requires h > 0
    ensures ScanBelow(t, begin, h, queryBegin, queryEnd, quote)
         == var left := ScanBelow(t, begin, h - 1, queryBegin, queryEnd, quote);
            if left != |t.prices| then left
            else ScanBelow(t, begin + Pow2(h - 1), h - 1, queryBegin, queryEnd, quote)
  {
    var middle := begin + Pow2(h - 1);
    assert Pow2(h) == 2 * Pow2(h - 1);
    var lo, hi := Max(begin, queryBegin), Min(begin + Pow2(h), queryEnd);
    if lo <= middle <= hi {
      FirstBeyondSplit(t.prices, t.findLess, lo, middle, hi, quote);
    }
  }

  /** A node whose extreme is not beyond the quote can be pruned: nothing the query covers below it is. */
  lemma PruneIsSound(t: Heap, node: nat, begin: nat, h: nat, queryBegin: nat, queryEnd: nat, quote: int)
    requires t.Built() && t.Covers(node, begin, h) && IsInt64(quote)
    requires !Beyond(t.findLess, t.tree[node], quote)
    ensures ScanBelow(t, begin, h, queryBegin, queryEnd, quote) == |t.prices|
  {
    NodeBeyondIffLeafBeyond(t, node, begin, h, quote);
    FirstBeyondIsLeast(t.prices, t.findLess, begin, begin + Pow2(h), quote);
    FirstBeyondIsLeast(t.prices, t.findLess, Max(begin, queryBegin), Min(begin + Pow2(h), queryEnd), quote);
  }

  /** The recursive descent. It visits a node, prunes on range or on the node's extreme, and prefers
      the left child. */
  function FirstSatisfyingImpl(t: Heap, tradeCount: nat, node: nat, nodeBegin: nat, nodeEnd: nat, ghost h: nat,
                               queryBegin: nat, queryEnd: nat, quote: int): (r: nat)
    requires t.Built() && tradeCount == |t.prices| && IsInt64(quote)
    requires t.Covers(node, nodeBegin, h) && nodeEnd == nodeBegin + Pow2(h)
    ensures r == ScanBelow(t, nodeBegin, h, queryBegin, queryEnd, quote)
    decreases h
  {
    if nodeEnd <= queryBegin || queryEnd <= nodeBegin then tradeCount
    else if !Beyond(t.findLess, t.tree[node], quote) then
      PruneIsSound(t, node, nodeBegin, h, queryBegin, queryEnd, quote);
      tradeCount
    else if nodeEnd - nodeBegin == 1 then
      NodeBeyondIffLeafBeyond(t, node, nodeBegin, h, quote);
      if nodeBegin < tradeCount then nodeBegin else tradeCount
    else
      ChildrenCover(t, node, nodeBegin, h);
      ScanBelowSplit(t, nodeBegin, h, queryBegin, queryEnd, quote);
      var middle := nodeBegin + (nodeEnd - nodeBegin) / 2;
      var left := FirstSatisfyingImpl(t, tradeCount, node * 2, nodeBegin, middle, h - 1, queryBegin, queryEnd, quote);
      if left != tradeCount then left
      else FirstSatisfyingImpl(t, tradeCount, node * 2 + 1, middle, nodeEnd, h - 1, queryBegin, queryEnd, quote)
  }

  /** How many nodes the descent visits: the same recursion, counting instead of answering. A subtree
      inside the query costs one visit when it holds no answer and at most 2h+1 when it does; one cut
      by a single query bound costs 2h+1 or 4h+1. */
  ghost function Visits(t: Heap, node: nat, begin: nat, h: nat, queryBegin: nat, queryEnd: nat, quote: int): (n: nat)
    requires t.Built() && t.Covers(node, begin, h) && IsInt64(quote)
    ensures queryBegin <= begin || begin + Pow2(h) <= queryEnd ==>
              n <= if ScanBelow(t, begin, h, queryBegin, queryEnd, quote) != |t.prices| then 4 * h + 1 else 2 * h + 1
    ensures queryBegin <= begin && begin + Pow2(h) <= queryEnd ==>
              n <= if ScanBelow(t, begin, h, queryBegin, queryEnd, quote) != |t.prices| then 2 * h + 1 else 1
    ensures begin + Pow2(h) <= queryBegin || queryEnd <= begin ==> n == 1
    decreases h
  {
    if begin + Pow2(h) <= queryBegin || queryEnd <= begin || !Beyond(t.findLess, t.tree[node], quote) || h == 0 then 1
    else
      ChildrenCover(t, node, begin, h);
      ScanBelowSplit(t, begin, h, queryBegin, queryEnd, quote);
      NodeBeyondIffLeafBeyond(t, node, begin, h, quote);
      var middle := begin + Pow2(h - 1);
      var left := FirstSatisfyingImpl(t, |t.prices|, node * 2, begin, middle, h - 1, queryBegin, queryEnd, quote);
      1 + Visits(t, node * 2, begin, h - 1, queryBegin, queryEnd, quote)
        + if left != |t.prices| then 0 else Visits(t, node * 2 + 1, middle, h - 1, queryBegin, queryEnd, quote)
  }

  /** In every case the descent visits at most 6h+1 nodes of a tree of height h: it follows one path until
      the query splits, and each half is then cut by a single bound. */
  ghost function VisitsBound(t: Heap, node: nat, begin: nat, h: nat, queryBegin: nat, queryEnd: nat, quote: int): (n: nat)
    requires t.Built() && t.Covers(node, begin, h) && IsInt64(quote)
    ensures Visits(t, node, begin, h, queryBegin, queryEnd, quote) <= n <= 6 * h + 1
    decreases h
  {
    if h == 0 then 1
    else
      ChildrenCover(t, node, begin, h);
      if queryEnd <= begin + Pow2(h - 1) then 2 + VisitsBound(t, node * 2, begin, h - 1, queryBegin, queryEnd, quote)
      else if begin + Pow2(h - 1) <= queryBegin then 2 + VisitsBound(t, node * 2 + 1, begin + Pow2(h - 1), h - 1, queryBegin, queryEnd, quote)
      else Visits(t, node, begin, h, queryBegin, queryEnd, quote)
  }

  class ExtremeTree {
    var tree: array<int>
    var leafCount: nat
    var tradeCount: nat
    var findLess: bool
    ghost var levels: nat
    ghost var prices: seq<int>

    ghost function Contents(): Heap
      reads this, tree
    {
      Heap(tree[..], levels, prices, findLess)
    }

    /** Holds before the first build (an empty tree) and after it. */
    ghost predicate Valid()
      reads this, tree
    {
      && tradeCount == |prices|
      && (tree.Length != 0 ==> leafCount == Pow2(levels) && Contents().Built())
      && (tree.Length == 0 ==> prices == [])
    }

    constructor ()
      ensures Valid() && prices == [] && fresh(tree)
    {
      tree := new int[0];
      leafCount, tradeCount, findLess := 0, 0, false;
      levels, prices := 0, [];
    }

    method Build(trades: seq<int>, less: bool)
      modifies this
      ensures Valid() && prices == trades && findLess == less && fresh(tree) && tree.Length > 0
    {
      var leaves := 1;
      ghost var height := 0;
      while leaves < Max(1, |trades|)
        invariant leaves == Pow2(height)
        decreases |trades| - leaves
      {
        leaves := leaves * 2;
        height := height + 1;
      }
      var nodes := new int[leaves * 2](_ => Identity(less));
      for index := 0 to |trades|
        invariant forall k | leaves <= k < leaves * 2 ::
                    nodes[k] == if k - leaves < index then trades[k - leaves] else Identity(less)
      {
        nodes[leaves + index] := trades[index];
      }
      CombineUp(nodes, leaves, height, trades, less);
      tree, leafCount, tradeCount, findLess := nodes, leaves, |trades|, less;
      levels, prices := height, trades;
    }

    /** The bottom-up pass: each inner node takes the extreme of its two children. */
    static method CombineUp(nodes: array<int>, leaves: nat, ghost height: nat, ghost trades: seq<int>, less: bool)
      requires nodes.Length == 2 * leaves && leaves == Pow2(height) && |trades| <= leaves
      requires forall k | leaves <= k < leaves * 2 ::
                 nodes[k] == if k - leaves < |trades| then trades[k - leaves] else Identity(less)
      modifies nodes
      ensures Heap(nodes[..], height, trades, less).Built()
    {
      var index := leaves;
      while index > 1
        invariant 1 <= index <= leaves
        invariant forall k | leaves <= k < leaves * 2 ::
                    nodes[k] == if k - leaves < |trades| then trades[k - leaves] else Identity(less)
        invariant forall k | index <= k < leaves :: Heap(nodes[..], height, trades, less).Combines(k)
      {
        ghost var was := Heap(nodes[..], height, trades, less);
        index := index - 1;
        nodes[index] := Extreme(less, nodes[index * 2], nodes[index * 2 + 1]);
        forall k | index <= k < leaves ensures Heap(nodes[..], height, trades, less).Combines(k) {
          if k > index {
            assert was.Combines(k);
          }
        }
      }
    }

    function FirstSatisfying(begin: nat, end: nat, quote: int): (r: nat)
      requires Valid() && IsInt64(quote)
      reads this, tree
      ensures end <= |prices| ==> r == FirstBeyond(prices, findLess, begin, end, quote)
      ensures end > |prices| ==> r == |prices|
    {
      if begin >= end || end > tradeCount || tree.Length == 0 then tradeCount
      else
        LeftmostRoot(1, levels);
        FirstSatisfyingImpl(Heap(tree[..], levels, prices, findLess), tradeCount, 1, 0, leafCount, levels, begin, end, quote)
    }
  }
}
