/**
 The slab of dex/src/critbit.rs: a flat node array with a bump pointer and an
 intrusive free list, holding a crit-bit tree that is rewritten in place.  Its
 clients see only `leaves`, an ordered map from key to leaf.
 */
module SlabStore {
  import opened Numbers
  import opened Bits
  import opened Orders
  import opened Ladder
  import opened CritTree

  datatype Node =
    | Blank
    | InnerNode(plen: nat, key: nat, left: nat, right: nat)
    | LeafNode(leaf: Leaf)
    | FreeNode(next: nat)
    | LastFreeNode(next: nat)

  /** The array slots of `t` hold exactly the nodes of `t`. */
  ghost predicate Rep(nodes: seq<Node>, t: Tree) {
    && t.h < |nodes|
    && match t
       case Tip(h, leaf) => nodes[h] == LeafNode(leaf)
       case Fork(h, plen, key, l, r) =>
         nodes[h] == InnerNode(plen, key, l.h, r.h) && Rep(nodes, l) && Rep(nodes, r)
  }

  lemma {:induction false} RepInRange(nodes: seq<Node>, t: Tree)
    requires Rep(nodes, t)
    ensures forall h :: h in Handles(t) ==> h < |nodes| && (nodes[h].InnerNode? || nodes[h].LeafNode?)
  {
    if t.Fork? {
      RepInRange(nodes, t.left);
      RepInRange(nodes, t.right);
    }
  }

  lemma {:induction false} RepFrame(nodes: seq<Node>, after: seq<Node>, t: Tree)
    requires Rep(nodes, t) && |after| == |nodes|
    requires forall h :: h in Handles(t) && h < |nodes| ==> after[h] == nodes[h]
    ensures Rep(after, t)
  {
    if t.Fork? {
      RepFrame(nodes, after, t.left);
      RepFrame(nodes, after, t.right);
    }
  }

  ghost predicate SameOutside(nodes: seq<Node>, after: seq<Node>, t: Tree, changed: set<nat>) {
    && |after| == |nodes|
    && forall h :: h in Handles(t) && h < |nodes| && h !in changed ==> after[h] == nodes[h]
  }

  /** Replacing the leaf of the tip where the insertion stops. */
  lemma {:induction false} RepClobber(nodes: seq<Node>, after: seq<Node>, t: Tree, x: Leaf, added: nat, moved: nat)
    requires Rep(nodes, t) && Wf(t) && Distinct(t)
    requires var p := InsertPoint(t, x.key);
             && Clobbers(p, x.key) && p.h < |after| && after[p.h] == LeafNode(x)
             && SameOutside(nodes, after, t, {p.h})
    ensures Rep(after, InsertTree(t, x, added, moved))
    decreases t
  {
    if Descends(t, x.key) {
      RepClobber(nodes, after, Child(t, x.key), x, added, moved);
      RepFrame(nodes, after, Sibling(t, x.key));
    }
  }

  /** Splitting the node where the insertion stops: the node moves, its slot becomes a fork. */
  lemma {:induction false} RepSplit(nodes: seq<Node>, after: seq<Node>, t: Tree, x: Leaf, added: nat, moved: nat)
    requires Rep(nodes, t) && Wf(t) && Distinct(t) && x.key < TWO128
    requires added !in Handles(t) && moved !in Handles(t) && added < |nodes| && moved < |nodes|
    requires var p := InsertPoint(t, x.key);
             var s := SharedPrefixLen(RootKey(p), x.key);
             && !Clobbers(p, x.key) && p.h < |nodes| && SameOutside(nodes, after, t, {p.h})
             && after[added] == LeafNode(x) && after[moved] == nodes[p.h]
             && s < 128
             && after[p.h] == (if Bit(x.key, s) then InnerNode(s, x.key, moved, added)
                               else InnerNode(s, x.key, added, moved))
    ensures Rep(after, InsertTree(t, x, added, moved))
    decreases t
  {
    if Descends(t, x.key) {
      RepSplit(nodes, after, Child(t, x.key), x, added, moved);
      RepFrame(nodes, after, Sibling(t, x.key));
    } else if t.Fork? {
      RepFrame(nodes, after, t.left);
      RepFrame(nodes, after, t.right);
    }
  }

  /** Removing a tip: its sibling's node moves into their parent's slot. */
  lemma {:induction false} RepRemove(nodes: seq<Node>, after: seq<Node>, t: Tree, key: nat)
    requires Rep(nodes, t) && Wf(t) && Distinct(t) && t.Fork?
    requires var p := RemovePoint(t, key);
             && p.h < |nodes| && Sibling(p, key).h < |nodes|
             && SameOutside(nodes, after, t, {p.h, Child(p, key).h, Sibling(p, key).h})
             && after[p.h] == nodes[Sibling(p, key).h]
    ensures Rep(after, RemoveTree(t, key))
    decreases t
  {
    RemoveTreeHandles(t, key);
    var c, other := Child(t, key), Sibling(t, key);
    if c.Tip? {
      if other.Fork? {
        RepFrame(nodes, after, other.left);
        RepFrame(nodes, after, other.right);
      }
    } else {
      RemovePointInside(c, key);
      RepRemove(nodes, after, c, key);
      RepFrame(nodes, after, other);
    }
  }

  lemma {:induction false} RemovePointInside(t: Tree, key: nat)
    requires Wf(t) && t.Fork?
    ensures var p := RemovePoint(t, key);
            p.h in Handles(t) && Child(p, key).h in Handles(t) && Sibling(p, key).h in Handles(t)
    decreases t
  {
    if Child(t, key).Fork? {
      RemovePointInside(Child(t, key), key);
    }
  }

  /** A leaf node of the tree is where the insertion of its own key stops. */
  lemma {:induction false} LeafIsInsertPoint(nodes: seq<Node>, t: Tree, h: nat)
    requires Rep(nodes, t) && Wf(t) && Distinct(t)
    requires h in Handles(t) && h < |nodes| && nodes[h].LeafNode?
    ensures var x := nodes[h].leaf; x in Leaves(t) && InsertPoint(t, x.key) == Tip(h, x)
  {
    if t.Fork? {
      var c := if h in Handles(t.left) then t.left else t.right;
      LeafIsInsertPoint(nodes, c, h);
      var x := nodes[h].leaf;
      LeavesInRange(t, x);
      SharedMeaning(t.key, x.key);
      if SharedPrefixLen(t.key, x.key) < t.plen {
        PrefixShorter(t.key, x.key, t.plen, SharedPrefixLen(t.key, x.key));
      }
    }
  }

  lemma SameSize(a: set<nat>, b: set<nat>)
    requires a <= b && |a| == |b|
    ensures a == b
  {
    assert b == a + (b - a);
    assert |b| == |a| + |b - a|;
    assert b - a == {};
  }

  /** The free list threads through the slots of `free` and ends in the marked last one. */
  ghost predicate FreeChain(nodes: seq<Node>, free: seq<nat>) {
    && (forall i :: 0 <= i < |free| ==> free[i] < |nodes|)
    && (forall i :: 0 <= i < |free| - 1 ==> nodes[free[i]] == FreeNode(free[i + 1]))
    && (free != [] ==> nodes[free[|free| - 1]].LastFreeNode?)
    && (forall i, j :: 0 <= i < j < |free| ==> free[i] != free[j])
  }

  lemma FreeChainFrame(nodes: seq<Node>, after: seq<Node>, free: seq<nat>)
    requires FreeChain(nodes, free) && |after| == |nodes|
    requires forall h :: h in free && h < |nodes| ==> after[h] == nodes[h]
    ensures FreeChain(after, free)
  {
  }

  /** The tree's part of the invariant: live nodes and free slots share `[0, bump)` without overlap. */
  ghost predicate TreeOk(nodes: seq<Node>, t: Tree, free: seq<nat>, bump: nat) {
    && Rep(nodes, t) && Wf(t) && Distinct(t)
    && (forall h :: h in Handles(t) ==> h < bump && h !in free)
    && |Handles(t)| + |free| == bump
  }

  /** Overwriting a leaf in place is map update by a leaf with the same key. */
  lemma OverwriteKeeps(nodes: seq<Node>, t: Tree, free: seq<nat>, bump: nat, h: nat, x: Leaf)
    requires TreeOk(nodes, t, free, bump) && h in Handles(t) && h < |nodes|
    requires nodes[h].LeafNode? && nodes[h].leaf.key == x.key
    ensures var r := InsertTree(t, x, |nodes|, |nodes| + 1);
            && TreeOk(nodes[h := LeafNode(x)], r, free, bump) && Handles(r) == Handles(t)
            && Leaves(r) == Insert(Leaves(t), x) && |Leaves(r)| == |Leaves(t)|
            && Find(Leaves(t), x.key) == Some(nodes[h].leaf)
  {
    hide Rep, Distinct, Wf, InsertTree, Insert, Leaves, Handles, Find;
    var a, m := |nodes|, |nodes| + 1;
    LeafIsInsertPoint(nodes, t, h);
    LeavesInRange(t, nodes[h].leaf);
    RepInRange(nodes, t);
    InsertPointFinds(t, x);
    InsertTreeIsInsert(t, x, a, m);
    InsertTreeHandles(t, x, a, m);
    RepClobber(nodes, nodes[h := LeafNode(x)], t, x, a, m);
    LeavesAscending(t);
    FindAfterInsert(Leaves(t), x, x.key);
  }

  function ForkNode(shared: nat, x: Leaf, added: nat, moved: nat): Node
    requires shared < 128
  {
    if Bit(x.key, shared) then InnerNode(shared, x.key, moved, added) else InnerNode(shared, x.key, added, moved)
  }

  /** The array after a split: the new leaf, the moved node, and the fork in the node's former slot. */
  function SplitNodes(nodes: seq<Node>, p: Tree, x: Leaf, added: nat, moved: nat): (r: seq<Node>)
    requires p.h < |nodes| && added < |nodes| && moved < |nodes| && SharedPrefixLen(RootKey(p), x.key) < 128
    ensures |r| == |nodes|
  {
    nodes[added := LeafNode(x)][moved := nodes[p.h]]
         [p.h := ForkNode(SharedPrefixLen(RootKey(p), x.key), x, added, moved)]
  }

  /** An allocation that is undone leaves the tree as it was. */
  lemma UndoKeeps(nodes: seq<Node>, after: seq<Node>, t: Tree, free: seq<nat>, bump: nat, slot: nat,
                  free': seq<nat>, bump': nat)
    requires TreeOk(nodes, t, free, bump) && |after| == |nodes| && slot !in Handles(t)
    requires forall k :: 0 <= k < |nodes| && k != slot ==> after[k] == nodes[k]
    requires (forall h :: h in free' ==> h == slot || h in free) && bump <= bump' && bump + |free'| == bump' + |free|
    ensures TreeOk(after, t, free', bump')
  {
    hide Rep, Distinct, Wf, Handles;
    RepFrame(nodes, after, t);
  }

  /** Splitting the insertion point, with two freshly allocated slots, is map update by a new key. */
  lemma SplitKeeps(nodes: seq<Node>, t: Tree, free: seq<nat>, bump: nat, x: Leaf, added: nat, moved: nat,
                   rest: seq<nat>, bump': nat)
    requires TreeOk(nodes, t, free, bump) && x.key < TWO128
    requires var p := InsertPoint(t, x.key);
             !Clobbers(p, x.key) && p.h < |nodes| && SharedPrefixLen(RootKey(p), x.key) < 128
    requires added < |nodes| && moved < |nodes| && added != moved && added !in Handles(t) && moved !in Handles(t)
    requires added !in rest && moved !in rest && added < bump' && moved < bump'
    requires (forall h :: h in rest ==> h in free) && bump <= bump' && bump + |rest| + 2 == bump' + |free|
    ensures TreeOk(SplitNodes(nodes, InsertPoint(t, x.key), x, added, moved), InsertTree(t, x, added, moved), rest,
          bump')
  {
    hide Rep, Distinct, InsertTree, InsertPoint, SplitNodes, Handles, Clobbers, Wf, SharedPrefixLen;
    InsertTreeHandles(t, x, added, moved);
    InsertTreeIsInsert(t, x, added, moved);
    SplitRep(nodes, t, x, added, moved);
    assert |Handles(t) + {added, moved}| == |Handles(t)| + 2;
  }

  lemma AddedIsLeaf(nodes: seq<Node>, t: Tree, x: Leaf, added: nat, moved: nat)
    requires Wf(t) && Distinct(t) && added !in Handles(t) && moved !in Handles(t)
    requires added != moved && added < |nodes| && moved < |nodes|
    requires var p := InsertPoint(t, x.key);
             !Clobbers(p, x.key) && p.h < |nodes| && SharedPrefixLen(RootKey(p), x.key) < 128
    ensures SplitNodes(nodes, InsertPoint(t, x.key), x, added, moved)[added] == LeafNode(x)
    ensures added in Handles(InsertTree(t, x, added, moved))
  {
    hide InsertPoint, Wf, Handles, SharedPrefixLen, Clobbers, InsertTree, Distinct;
    InsertTreeHandles(t, x, added, moved);
  }

  lemma SplitRep(nodes: seq<Node>, t: Tree, x: Leaf, added: nat, moved: nat)
    requires Rep(nodes, t) && Wf(t) && Distinct(t) && x.key < TWO128
    requires var p := InsertPoint(t, x.key);
             !Clobbers(p, x.key) && p.h < |nodes| && SharedPrefixLen(RootKey(p), x.key) < 128
    requires added < |nodes| && moved < |nodes| && added != moved && added !in Handles(t) && moved !in Handles(t)
    ensures Rep(SplitNodes(nodes, InsertPoint(t, x.key), x, added, moved), InsertTree(t, x, added, moved))
  {
    hide InsertTree, InsertPoint, Wf, Distinct, Clobbers, SharedPrefixLen;
    RepSplit(nodes, SplitNodes(nodes, InsertPoint(t, x.key), x, added, moved), t, x, added, moved);
  }

  /** What an insertion of a new key does to the leaves. */
  lemma SplitLeaves(t: Tree, x: Leaf, added: nat, moved: nat)
    requires Wf(t) && x.key < TWO128 && !Clobbers(InsertPoint(t, x.key), x.key)
    ensures var r := InsertTree(t, x, added, moved);
            && Leaves(r) == Insert(Leaves(t), x) && |Leaves(r)| == |Leaves(t)| + 1
            && Find(Leaves(t), x.key).None?
    ensures SharedPrefixLen(RootKey(InsertPoint(t, x.key)), x.key) < 128
  {
    hide InsertTree, InsertPoint, Clobbers, Leaves, Wf, SharedPrefixLen;
    SplitDiverges(InsertPoint(t, x.key), x);
    InsertTreeIsInsert(t, x, added, moved);
    InsertPointFinds(t, x);
    LeavesAscending(t);
    FindAfterInsert(Leaves(t), x, x.key);
  }

  /** Unlinking a tip and freeing two slots is map deletion. */
  lemma UnlinkKeeps(nodes: seq<Node>, after: seq<Node>, t: Tree, free: seq<nat>, bump: nat, x: Leaf)
    requires TreeOk(nodes, t, free, bump) && t.Fork? && x in Leaves(t)
    requires var p := RemovePoint(t, x.key);
             var c, other := Child(p, x.key).h, Sibling(p, x.key).h;
             && p.h < |nodes| && other < |nodes| && |after| == |nodes| && after[p.h] == nodes[other]
             && forall h :: 0 <= h < |nodes| && h != p.h && h != c && h != other ==> after[h] == nodes[h]
    ensures var p := RemovePoint(t, x.key);
            var c, other := Child(p, x.key).h, Sibling(p, x.key).h;
            var r := RemoveTree(t, x.key);
            && TreeOk(after, r, [c, other] + free, bump)
            && Leaves(r) == Remove(Leaves(t), x.key) && |Leaves(r)| == |Leaves(t)| - 1
  {
    hide Rep, Wf, Distinct, Handles, Leaves, RemoveTree, RemovePoint, Child, Sibling, Find, Remove;
    RemovePointChildren(nodes, t, free, bump, x.key);
    var p := RemovePoint(t, x.key);
    var c, other := Child(p, x.key).h, Sibling(p, x.key).h;
    RepRemove(nodes, after, t, x.key);
    RemoveTreeHandles(t, x.key);
    RemoveTreeIsRemove(t, x);
    assert |Handles(t) - {c, other}| == |Handles(t)| - 2;
    LeavesAscending(t);
    FindAfterRemove(Leaves(t), x.key, x.key);
    assert HasKey(Leaves(t), x.key);
  }

  /** What the removal code reads around the removal point. */
  lemma RemovePointNodes(nodes: seq<Node>, t: Tree, free: seq<nat>, bump: nat, key: nat)
    requires TreeOk(nodes, t, free, bump) && t.Fork?
    ensures var p := RemovePoint(t, key);
            var c, other := Child(p, key).h, Sibling(p, key).h;
            && p.plen < 128 && p.h < |nodes| && nodes[p.h] == InnerNode(p.plen, p.key, p.left.h, p.right.h)
            && c < |nodes| && nodes[c] == LeafNode(Child(p, key).leaf)
            && other < |nodes| && (nodes[other].InnerNode? || nodes[other].LeafNode?)
            && c < bump && other < bump && c !in free && other !in free && p.h !in free
            && c != other && p.h != c && p.h != other
  {
    RepInRange(nodes, t);
    RemovePointInside(t, key);
    RemovePointRep(nodes, t, key);
    RemoveTreeHandles(t, key);
    RemovePointDistinct(t, key);
  }

  lemma RemovePointChildren(nodes: seq<Node>, t: Tree, free: seq<nat>, bump: nat, key: nat)
    requires TreeOk(nodes, t, free, bump) && t.Fork?
    ensures var p := RemovePoint(t, key);
            && Wf(t) && p.plen < 128
            && Child(p, key).h == (if Bit(key, p.plen) then p.right.h else p.left.h)
            && Sibling(p, key).h == (if Bit(key, p.plen) then p.left.h else p.right.h)
  {
  }

  lemma {:induction false} RemovePointDistinct(t: Tree, key: nat)
    requires Wf(t) && t.Fork? && Distinct(t)
    ensures Distinct(RemovePoint(t, key))
    decreases t
  {
    if Child(t, key).Fork? {
      RemovePointDistinct(Child(t, key), key);
    }
  }

  /** What the insertion code reads at the insertion point. */
  lemma InsertPointNode(nodes: seq<Node>, t: Tree, key: nat)
    requires Rep(nodes, t) && Wf(t)
    ensures var p := InsertPoint(t, key);
            && p.h < |nodes| && (nodes[p.h].InnerNode? || nodes[p.h].LeafNode?)
            && RootKey(p) == NodeKey(nodes[p.h])
  {
    RepInRange(nodes, t);
    InsertPointRep(nodes, t, key);
  }

  function NodeKey(n: Node): nat
    requires n.InnerNode? || n.LeafNode?
  {
    if n.LeafNode? then n.leaf.key else n.key
  }

  /** Pushing a slot on the free list. */
  lemma FreeChainPush(nodes: seq<Node>, free: seq<nat>, h: nat, head: nat)
    requires FreeChain(nodes, free) && h < |nodes| && h !in free && (free != [] ==> head == free[0])
    ensures FreeChain(nodes[h := if |free| == 0 then LastFreeNode(head) else FreeNode(head)], [h] + free)
  {
  }

  /** Taking the first slot off the free list: its tag tells whether it is the last. */
  lemma FreeChainPop(nodes: seq<Node>, free: seq<nat>, val: Node)
    requires FreeChain(nodes, free) && free != []
    ensures free[0] < |nodes| && free[0] !in free[1..]
    ensures if |free| > 1 then nodes[free[0]] == FreeNode(free[1]) else nodes[free[0]].LastFreeNode?
    ensures FreeChain(nodes[free[0] := val], free[1..])
  {
  }

  datatype InsertResult =
    | Inserted(handle: nat, previous: Option<Leaf>)
    | OutOfSpace

  class Slab {
    const nodes: array<Node>
    var bumpIndex: nat
    var freeListLen: nat
    var freeListHead: nat
    var rootNode: nat
    var leafCount: nat

    ghost var free: seq<nat>
    ghost var tree: Option<Tree>
    ghost var leaves: seq<Leaf>

    /** Number of usable slots: handles are 32-bit numbers. */
    function Capacity(): nat {
      if nodes.Length <= 0xFFFF_FFFF then nodes.Length else 0xFFFF_FFFF
    }

    /** The allocator's part of the invariant. */
    ghost predicate Heap()
      reads this, nodes
    {
      && bumpIndex <= Capacity()
      && |free| == freeListLen
      && (freeListLen > 0 ==> freeListHead == free[0])
      && FreeChain(nodes[..], free)
      && forall i :: 0 <= i < |free| ==> free[i] < bumpIndex
    }

    ghost predicate Holds(t: Tree)
      reads this, nodes
    {
      && TreeOk(nodes[..], t, free, bumpIndex)
      && rootNode == t.h && leaves == Leaves(t)
    }

    ghost predicate Valid()
      reads this, nodes
    {
      && Heap()
      && leafCount == |leaves|
      && match tree
         case None => leaves == [] && |free| == bumpIndex
         case Some(t) => Holds(t)
    }

    constructor (slots: nat)
      ensures Valid() && leaves == [] && nodes.Length == slots && fresh(nodes)
    {
      nodes := new Node[slots](_ => Blank);
      bumpIndex, freeListLen, freeListHead, rootNode, leafCount := 0, 0, 0, 0, 0;
      free, tree, leaves := [], None, [];
    }

    /** Live nodes and free slots partition `[0, bumpIndex)`; n leaves take exactly 2n - 1 live nodes. */
    lemma SpaceIsExact()
      requires Valid()
      ensures var live := if tree.Some? then Handles(tree.value) else {};
              && live !! Elements(free) && live + Elements(free) == Below(bumpIndex)
              && |live| == (if leafCount == 0 then 0 else 2 * leafCount - 1)
              && bumpIndex == |live| + freeListLen
    {
      hide Rep, Wf, Leaves, Handles, Elements, Below;
      var live := if tree.Some? then Handles(tree.value) else {};
      DistinctCount(free);
      if tree.Some? {
        HandleCount(tree.value);
      }
      SameSize(live + Elements(free), Below(bumpIndex));
    }

    /** `h` is the handle of a resting leaf. */
    ghost predicate IsHandle(h: nat)
      reads this, nodes
    {
      tree.Some? && h in Handles(tree.value) && h < nodes.Length && nodes[h].LeafNode?
    }

    /** The leaf behind a handle, as `get(h)` gives it. */
    function LeafAt(h: nat): (x: Leaf)
      requires IsHandle(h)
      reads this, nodes
    {
      nodes[h].leaf
    }

    /** The map is listed in strictly ascending key order. */
    lemma LeavesAreAscending()
      requires Valid()
      ensures Ascending(leaves)
    {
      if tree.Some? {
        LeavesAscending(tree.value);
      }
    }

    /** SlabView::insert: take the head of the free list, or bump. */
    method Allocate(val: Node) returns (r: Option<nat>)
      requires Heap() && (val.InnerNode? || val.LeafNode?)
      modifies this`bumpIndex, this`freeListLen, this`freeListHead, this`free, nodes
      ensures Heap()
      ensures r.None? <==> old(free) == [] && old(bumpIndex) == Capacity()
      ensures r.None? ==> nodes[..] == old(nodes[..]) && free == old(free) && bumpIndex == old(bumpIndex)
      ensures r.Some? ==>
                && r.value < nodes.Length && nodes[..] == old(nodes[..])[r.value := val]
                && r.value < bumpIndex && r.value !in free
                && if old(free) == [] then free == [] && r.value == old(bumpIndex) && bumpIndex == old(bumpIndex) + 1
                   else r.value == old(free)[0] && free == old(free)[1..] && bumpIndex == old(bumpIndex)
    {
      hide FreeChain;
      if freeListLen == 0 {
        if bumpIndex == nodes.Length {
          return None;
        }
        if bumpIndex == 0xFFFF_FFFF {
          return None;
        }
        var key := bumpIndex;
        FreeChainFrame(nodes[..], nodes[..][key := val], free);
        bumpIndex := bumpIndex + 1;
        nodes[key] := val;
        return Some(key);
      }
      var key := freeListHead;
      FreeChainPop(nodes[..], free, val);
      var node := nodes[key];
      assert if node.FreeNode? then freeListLen > 1 else node.LastFreeNode? && freeListLen == 1;
      freeListHead := node.next;
      freeListLen := freeListLen - 1;
      nodes[key] := val;
      free := free[1..];
      return Some(key);
    }

    /** SlabView::remove: push the slot on the free list. */
    method Release(h: nat) returns (node: Node)
      requires Heap() && h < bumpIndex && h !in free
      requires nodes[h].InnerNode? || nodes[h].LeafNode?
      modifies this`freeListLen, this`freeListHead, this`free, nodes
      ensures Heap()
      ensures node == old(nodes[h]) && free == [h] + old(free)
      ensures forall k :: 0 <= k < nodes.Length && k != h ==> nodes[k] == old(nodes[k])
    {
      hide FreeChain;
      node := nodes[h];
      FreeChainPush(nodes[..], free, h, freeListHead);
      nodes[h] := if freeListLen == 0 then LastFreeNode(freeListHead) else FreeNode(freeListHead);
      freeListLen := freeListLen + 1;
      freeListHead := h;
      free := [h] + free;
    }

    /** find_min_max: follow the leftmost or rightmost children. */
    method FindMinMax(findMax: bool) returns (r: Option<nat>)
      requires Valid()
      ensures r.None? <==> leaves == []
      ensures r.Some? ==> IsHandle(r.value) && LeafAt(r.value) == if findMax then leaves[|leaves| - 1] else leaves[0]
    {
      hide Distinct, FreeChain, Wf, Leaves;
      if leafCount == 0 {
        return None;
      }
      var h := rootNode;
      ghost var sub := tree.value;
      while nodes[h].InnerNode?
        invariant Rep(nodes[..], sub) && sub.h == h && Handles(sub) <= Handles(tree.value)
        invariant (if findMax then Rightmost(tree.value) == Rightmost(sub) else Leftmost(tree.value) == Leftmost(sub))
        decreases sub
      {
        h := if findMax then nodes[h].right else nodes[h].left;
        sub := if findMax then sub.right else sub.left;
      }
      return Some(h);
    }

    /** Overwrite a leaf in place by one with the same key. */
    method Overwrite(h: nat, x: Leaf)
      requires Valid() && IsHandle(h) && LeafAt(h).key == x.key
      modifies this, nodes
      ensures Valid()
      ensures leaves == Insert(old(leaves), x)
      ensures Find(old(leaves), x.key) == Some(old(LeafAt(h)))
      ensures IsHandle(h) && LeafAt(h) == x
    {
      hide Rep, Distinct, InsertTree, Insert, Leaves, Handles, Find, FreeChain;
      ghost var t := tree.value;
      OverwriteKeeps(nodes[..], t, free, bumpIndex, h, x);
      nodes[h] := LeafNode(x);
      FreeChainFrame(old(nodes[..]), nodes[..], free);
      tree := Some(InsertTree(t, x, nodes.Length, nodes.Length + 1));
      leaves := Leaves(tree.value);
    }

    /** Turn the node at `h` into the lowest common ancestor of itself and the new leaf. */
    method SplitAt(h: nat, x: Leaf) returns (r: InsertResult)
      requires Valid() && tree.Some? && x.key < TWO128 && h < nodes.Length
      requires InsertPoint(tree.value, x.key).h == h && !Clobbers(InsertPoint(tree.value, x.key), x.key)
      modifies this, nodes
      ensures Valid()
      ensures r.OutOfSpace? <==> 2 * |old(leaves)| + 1 > Capacity()
      ensures r.OutOfSpace? ==> leaves == old(leaves)
      ensures r.Inserted? ==> r.previous.None? && leaves == Insert(old(leaves), x)
      ensures r.Inserted? ==> IsHandle(r.handle) && LeafAt(r.handle) == x
    {
      hide Rep, Distinct, Wf, InsertTree, InsertPoint, Insert, Leaves, Handles, FreeChain, Find, SharedPrefixLen,
          Clobbers;
      ghost var t := tree.value;
      HandleCount(t);
      InsertPointNode(nodes[..], t, x.key);
      var contents := nodes[h];
      var leafHandle := Allocate(LeafNode(x));
      if leafHandle.None? {
        return OutOfSpace;
      }
      var movedHandle := Allocate(contents);
      if movedHandle.None? {
        var _ := Release(leafHandle.value);
        UndoKeeps(old(nodes[..]), nodes[..], t, old(free), old(bumpIndex), leafHandle.value, free, bumpIndex);
        return OutOfSpace;
      }
      var added, moved := leafHandle.value, movedHandle.value;
      SplitLeaves(t, x, added, moved);
      AddedIsLeaf(old(nodes[..]), t, x, added, moved);
      SplitKeeps(old(nodes[..]), t, old(free), old(bumpIndex), x, added, moved, free, bumpIndex);
      PlaceFork(h, x, SharedPrefixLen(NodeKey(contents), x.key), added, moved, InsertTree(t, x, added, moved));
      return Inserted(added, None);
    }

    /** Last step of an insertion: write the fork and count the leaf. */
    method PlaceFork(h: nat, x: Leaf, shared: nat, added: nat, moved: nat, ghost t: Tree)
      requires Heap() && shared < 128 && h < nodes.Length && h !in free
      requires TreeOk(nodes[..][h := ForkNode(shared, x, added, moved)], t, free, bumpIndex)
      requires rootNode == t.h && Leaves(t) == Insert(leaves, x) && |Leaves(t)| == leafCount + 1
      modifies this`leafCount, this`tree, this`leaves, nodes
      ensures Valid() && leaves == Insert(old(leaves), x)
      ensures nodes[..] == old(nodes[..])[h := ForkNode(shared, x, added, moved)] && tree == Some(t)
    {
      nodes[h] := ForkNode(shared, x, added, moved);
      FreeChainFrame(old(nodes[..]), nodes[..], free);
      leafCount := leafCount + 1;
      tree := Some(t);
      leaves := Leaves(t);
    }

    /** insert_leaf: map update, failing exactly when a new key finds no two free slots. */
    method InsertLeaf(x: Leaf) returns (r: InsertResult)
      requires Valid() && x.key < TWO128
      modifies this, nodes
      ensures Valid()
      ensures r.OutOfSpace? <==> Find(old(leaves), x.key).None? && 2 * |old(leaves)| + 1 > Capacity()
      ensures r.OutOfSpace? ==> leaves == old(leaves)
      ensures r.Inserted? ==> leaves == Insert(old(leaves), x) && r.previous == Find(old(leaves), x.key)
      ensures r.Inserted? ==> IsHandle(r.handle) && LeafAt(r.handle) == x
    {
      if leafCount == 0 {
        r := InsertFirst(x);
        return;
      }
      ghost var t := tree.value;
      var h := rootNode;
      ghost var sub := t;
      InsertPointFinds(t, x);
      while true
        invariant Rep(nodes[..], sub) && Wf(sub) && sub.h == h && Handles(sub) <= Handles(t)
        invariant InsertPoint(t, x.key) == InsertPoint(sub, x.key)
        decreases sub
      {
        var contents := nodes[h];
        var rootKey := if contents.LeafNode? then contents.leaf.key else contents.key;
        if rootKey == x.key && contents.LeafNode? {
          Overwrite(h, x);
          return Inserted(h, Some(contents.leaf));
        }
        var shared := SharedPrefixLen(rootKey, x.key);
        if contents.InnerNode? && shared >= contents.plen {
          h := if Bit(x.key, contents.plen) then contents.right else contents.left;
          sub := Child(sub, x.key);
        } else {
          r := SplitAt(h, x);
          return;
        }
      }
    }

    /** Create the root when the tree is empty. */
    method InsertFirst(x: Leaf) returns (r: InsertResult)
      requires Valid() && leafCount == 0 && x.key < TWO128
      modifies this, nodes
      ensures Valid()
      ensures r.OutOfSpace? <==> Capacity() == 0
      ensures r.OutOfSpace? ==> leaves == old(leaves)
      ensures r.Inserted? ==> leaves == [x] && r.previous.None? && IsHandle(r.handle) && LeafAt(r.handle) == x
    {
      var handle := Allocate(LeafNode(x));
      if handle.None? {
        return OutOfSpace;
      }
      rootNode := handle.value;
      leafCount := 1;
      tree := Some(Tip(handle.value, x));
      leaves := [x];
      return Inserted(handle.value, None);
    }

    /** remove_by_key: map deletion, returning the old leaf. */
    method RemoveByKey(key: nat) returns (r: Option<Leaf>)
      requires Valid()
      modifies this, nodes
      ensures Valid()
      ensures r == Find(old(leaves), key)
      ensures leaves == Remove(old(leaves), key)
      ensures r.None? ==> leaves == old(leaves)
    {
      hide Distinct, Leaves, Handles, Find, Remove, FreeChain;
      RemoveAbsent(leaves, key);
      if leafCount == 0 {
        return None;
      }
      ghost var t := tree.value;
      WalkDecides(t, key);
      if nodes[rootNode].LeafNode? {
        r := RemoveRoot(key);
        return;
      }
      var parent := rootNode;
      var child := if Bit(key, nodes[parent].plen) then nodes[parent].right else nodes[parent].left;
      ghost var sub := t;
      while nodes[child].InnerNode?
        invariant Rep(nodes[..], sub) && Wf(sub) && sub.Fork? && sub.h == parent && Child(sub, key).h == child
        invariant RemovePoint(t, key) == RemovePoint(sub, key)
        decreases sub
      {
        parent := child;
        sub := Child(sub, key);
        child := if Bit(key, nodes[parent].plen) then nodes[parent].right else nodes[parent].left;
      }
      var leaf := nodes[child].leaf;
      RemovePointFinds(t, key);
      if leaf.key != key {
        return None;
      }
      Unlink(parent, child, leaf);
      return Some(leaf);
    }

    /** Removal when the root is the only leaf. */
    method RemoveRoot(key: nat) returns (r: Option<Leaf>)
      requires Valid() && leafCount > 0 && rootNode < nodes.Length && nodes[rootNode].LeafNode?
      modifies this, nodes
      ensures Valid()
      ensures r == Find(old(leaves), key) && leaves == Remove(old(leaves), key)
    {
      var leaf := nodes[rootNode].leaf;
      if leaf.key != key {
        return None;
      }
      var h := rootNode;
      assert h in Handles(tree.value);
      rootNode := 0;
      leafCount := 0;
      var _ := Release(h);
      tree, leaves := None, [];
      return Some(leaf);
    }

    /** Replace the parent by its other child and free both children's slots. */
    method Unlink(parent: nat, child: nat, leaf: Leaf)
      requires Valid() && tree.Some? && tree.value.Fork?
      requires var p := RemovePoint(tree.value, leaf.key);
               p.h == parent && Child(p, leaf.key) == Tip(child, leaf)
      requires leaf in leaves && parent < nodes.Length && child < nodes.Length
      modifies this, nodes
      ensures Valid() && leaves == Remove(old(leaves), leaf.key)
    {
      hide Rep, Distinct, Wf, RemoveTree, RemovePoint, Remove, Leaves, Handles, FreeChain, Find, HasKey, TreeOk,
          Child, Sibling,
        Bit, Slab.Capacity;
      ghost var t := tree.value;
      RemovePointNodes(nodes[..], t, free, bumpIndex, leaf.key);
      RemovePointChildren(nodes[..], t, free, bumpIndex, leaf.key);
      var node := nodes[parent];
      var other := if Bit(leaf.key, node.plen) then node.left else node.right;
      Detach(parent, child, other);
      leafCount := leafCount - 1;
      UnlinkKeeps(old(nodes[..]), nodes[..], t, old(free), bumpIndex, leaf);
      tree := Some(RemoveTree(t, leaf.key));
      leaves := Leaves(tree.value);
    }

    /** Move the node of one child into the parent's slot and free both children's slots. */
    method Detach(parent: nat, child: nat, other: nat)
      requires Heap() && parent < nodes.Length && child < bumpIndex && other < bumpIndex
      requires parent !in free && child !in free && other !in free && child != other && parent != child
            && parent != other
      requires nodes[child].LeafNode? && (nodes[other].InnerNode? || nodes[other].LeafNode?)
      modifies this`freeListLen, this`freeListHead, this`free, nodes
      ensures Heap() && free == [child, other] + old(free)
      ensures nodes[parent] == old(nodes[other])
      ensures forall k :: 0 <= k < nodes.Length && k != parent && k != child && k != other ==> nodes[k] == old(nodes[k])
    {
      hide FreeChain;
      var otherContents := Release(other);
      label Freed:
      nodes[parent] := otherContents;
      FreeChainFrame(old@Freed(nodes[..]), nodes[..], free);
      var _ := Release(child);
      assert free == [child, other] + old(free);
    }

    /** remove_min and remove_max. */
    method RemoveMinMax(findMax: bool) returns (r: Option<Leaf>)
      requires Valid()
      modifies this, nodes
      ensures Valid()
      ensures old(leaves) == [] ==> r.None? && leaves == []
      ensures old(leaves) != [] ==>
                && r == Some(if findMax then old(leaves)[|old(leaves)| - 1] else old(leaves)[0])
                && leaves == if findMax then old(leaves)[..|old(leaves)| - 1] else old(leaves)[1..]
    {
      hide Valid, Insert, Find, Remove, Ascending;
      var h := FindMinMax(findMax);
      if h.None? {
        return None;
      }
      LeavesAreAscending();
      RemoveEnd(leaves, findMax);
      r := RemoveByKey(LeafAt(h.value).key);
    }
  }

  /** The insertion point is represented in the array like the tree it lies in. */
  lemma {:induction false} InsertPointRep(nodes: seq<Node>, t: Tree, key: nat)
    requires Rep(nodes, t) && Wf(t)
    ensures Rep(nodes, InsertPoint(t, key))
    decreases t
  {
    if Descends(t, key) {
      InsertPointRep(nodes, Child(t, key), key);
    }
  }

  lemma {:induction false} RemovePointRep(nodes: seq<Node>, t: Tree, key: nat)
    requires Rep(nodes, t) && Wf(t) && t.Fork?
    ensures Rep(nodes, RemovePoint(t, key))
    decreases t
  {
    if Child(t, key).Fork? {
      RemovePointRep(nodes, Child(t, key), key);
    }
  }

  lemma {:induction false} RemoveAbsent(s: seq<Leaf>, key: nat)
    ensures Find(s, key).None? ==> Remove(s, key) == s
    ensures s == [] ==> Find(s, key).None?
  {
    if s != [] {
      RemoveAbsent(s[1..], key);
    }
  }

  /** Deleting the least or greatest key drops that end of the sequence. */
  lemma {:induction false} RemoveEnd(s: seq<Leaf>, last: bool)
    requires Ascending(s) && s != []
    ensures var x := if last then s[|s| - 1] else s[0];
            && Find(s, x.key) == Some(x)
            && Remove(s, x.key) == if last then s[..|s| - 1] else s[1..]
  {
    if last && |s| > 1 {
      RemoveEnd(s[1..], last);
      assert s[1..][..|s| - 2] == s[1..|s| - 1];
      assert [s[0]] + s[1..|s| - 1] == s[..|s| - 1];
    }
  }
}
