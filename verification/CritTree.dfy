/**
 The shape of the crit-bit tree, as a value: which array slot holds which node.
 `InsertTree` and `RemoveTree` describe the tree that the in-place code of
 dex/src/critbit.rs leaves behind; the lemmas show that on the in-order leaf
 sequence they are map update and map deletion.
 */
module CritTree {
  import opened Numbers
  import opened Bits
  import opened Orders
  import opened Ladder

  datatype Tree =
    | Tip(h: nat, leaf: Leaf)
    | Fork(h: nat, plen: nat, key: nat, left: Tree, right: Tree)

  function RootKey(t: Tree): nat {
    if t.Tip? then t.leaf.key else t.key
  }

  /** In-order traversal. */
  function Leaves(t: Tree): (s: seq<Leaf>)
    ensures |s| >= 1
  {
    match t
    case Tip(_, leaf) => [leaf]
    case Fork(_, _, _, l, r) => Leaves(l) + Leaves(r)
  }

  function Handles(t: Tree): (s: set<nat>)
    ensures t.h in s
  {
    match t
    case Tip(h, _) => {h}
    case Fork(h, _, _, l, r) => {h} + Handles(l) + Handles(r)
  }

  /** No array slot is used twice. */
  ghost predicate Distinct(t: Tree) {
    t.Fork? ==>
      && t.h !in Handles(t.left) && t.h !in Handles(t.right)
      && Handles(t.left) !! Handles(t.right)
      && Distinct(t.left) && Distinct(t.right)
  }

  /** Every leaf below `t` starts with the first `p` bits of `key`. */
  ghost predicate Under(t: Tree, p: nat, key: nat)
    requires p <= 128
  {
    forall x :: x in Leaves(t) ==> Prefix(x.key, p) == Prefix(key, p)
  }

  ghost predicate BitIs(t: Tree, p: nat, b: bool)
    requires p < 128
  {
    forall x :: x in Leaves(t) ==> Bit(x.key, p) == b
  }

  /** The prefix and crit-bit invariant. */
  ghost predicate Wf(t: Tree) {
    match t
    case Tip(_, leaf) => leaf.key < TWO128
    case Fork(_, plen, key, l, r) =>
      && plen < 128 && key < TWO128
      && Wf(l) && Wf(r)
      && Under(l, plen, key) && BitIs(l, plen, false)
      && Under(r, plen, key) && BitIs(r, plen, true)
  }

  /** Number of forks on the longest way down. */
  function Height(t: Tree): nat {
    if t.Tip? then 0 else 1 + (if Height(t.left) < Height(t.right) then Height(t.right) else Height(t.left))
  }

  /** Prefix lengths strictly increase on the way down, so that a descent takes at most 128 steps. */
  lemma {:induction false} PrefixesIncrease(t: Tree)
    requires Wf(t)
    ensures t.Fork? && t.left.Fork? ==> t.plen < t.left.plen
    ensures t.Fork? && t.right.Fork? ==> t.plen < t.right.plen
    ensures Height(t) <= if t.Fork? then 128 - t.plen else 0
  {
    if t.Fork? {
      PrefixesIncrease(t.left);
      PrefixesIncrease(t.right);
      if t.left.Fork? {
        LongerPrefix(t, t.left);
      }
      if t.right.Fork? {
        LongerPrefix(t, t.right);
      }
    }
  }

  /** The leaves of a fork differ in its critical bit; those of one of its sides agree in the parent's. */
  lemma LongerPrefix(t: Tree, c: Tree)
    requires Wf(t) && t.Fork? && (c == t.left || c == t.right) && c.Fork?
    ensures t.plen < c.plen
  {
    var x, y := Leaves(c.left)[0], Leaves(c.right)[0];
    assert x in Leaves(c.left) && y in Leaves(c.right) && x in Leaves(c) && y in Leaves(c);
    if c.plen <= t.plen {
      SharedBits(x.key, y.key, t.plen, c.plen);
    }
  }

  /** Two keys with the same first `p` bits and the same bit `p` agree in every earlier bit too. */
  lemma SharedBits(a: nat, b: nat, p: nat, q: nat)
    requires q <= p < 128 && Prefix(a, p) == Prefix(b, p) && Bit(a, p) == Bit(b, p)
    ensures Bit(a, q) == Bit(b, q)
  {
    PrefixStep(a, p);
    PrefixStep(b, p);
    PrefixShorter(a, b, p + 1, q);
  }

  function Child(t: Tree, key: nat): (c: Tree)
    requires t.Fork? && t.plen < 128
    ensures c < t
  {
    if Bit(key, t.plen) then t.right else t.left
  }

  lemma LeavesInRange(t: Tree, x: Leaf)
    requires Wf(t) && x in Leaves(t)
    ensures x.key < TWO128
  {
  }

  /** All keys on the left of a fork are below all keys on its right. */
  lemma ForkOrders(t: Tree, a: Leaf, b: Leaf)
    requires Wf(t) && t.Fork? && a in Leaves(t.left) && b in Leaves(t.right)
    ensures a.key < b.key
  {
    CritBitOrders(a.key, b.key, t.plen);
  }

  /** In-order traversal of a well-formed tree is strictly ascending. */
  lemma {:induction false} LeavesAscending(t: Tree)
    requires Wf(t)
    ensures Ascending(Leaves(t))
  {
    if t.Fork? {
      LeavesAscending(t.left);
      LeavesAscending(t.right);
      var y := Leaves(t.right)[0];
      assert y in Leaves(t.right);
      forall x | x in Leaves(t.left) ensures x.key < y.key {
        ForkOrders(t, x, y);
      }
      forall z | z in Leaves(t.right) ensures y.key <= z.key {
        assert Ascending(Leaves(t.right));
      }
      AscendingConcat(Leaves(t.left), Leaves(t.right), y.key);
    }
  }

  // ----- search -----

  /** The tip reached by following the bits of `key`. */
  function Walk(t: Tree, key: nat): (tip: Tree)
    requires Wf(t)
    ensures tip.Tip? && tip.leaf in Leaves(t)
  {
    if t.Tip? then t else Walk(Child(t, key), key)
  }

  /** The walk finds a key exactly when the tree holds it. */
  lemma {:induction false} WalkFinds(t: Tree, x: Leaf)
    requires Wf(t) && x in Leaves(t)
    ensures Walk(t, x.key).leaf == x
  {
    if t.Fork? {
      assert x in Leaves(Child(t, x.key));
      WalkFinds(Child(t, x.key), x);
    }
  }

  function Leftmost(t: Tree): (tip: Tree)
    ensures tip.Tip? && tip.leaf == Leaves(t)[0]
  {
    if t.Tip? then t else Leftmost(t.left)
  }

  function Rightmost(t: Tree): (tip: Tree)
    ensures tip.Tip? && tip.leaf == Leaves(t)[|Leaves(t)| - 1]
  {
    if t.Tip? then t else Rightmost(t.right)
  }

  // ----- insertion -----

  /** Does insertion replace the leaf of this tip? */
  predicate Clobbers(t: Tree, key: nat) {
    t.Tip? && t.leaf.key == key
  }

  /** Does insertion pass below this node? */
  predicate Descends(t: Tree, key: nat) {
    t.Fork? && t.plen <= SharedPrefixLen(t.key, key)
  }

  /** The subtree whose root node the insertion of `key` rewrites. */
  function InsertPoint(t: Tree, key: nat): (p: Tree)
    requires Wf(t)
    ensures Wf(p) && !Descends(p, key) && p.h in Handles(t)
  {
    if Descends(t, key) then InsertPoint(Child(t, key), key) else t
  }

  /** The old node moves to `moved`; its former slot becomes the fork above it and the new tip. */
  function Split(t: Tree, x: Leaf, added: nat, moved: nat): Tree {
    var s := SharedPrefixLen(RootKey(t), x.key);
    var tip, lower := Tip(added, x), t.(h := moved);
    if s < 128 && Bit(x.key, s) then Fork(t.h, s, x.key, lower, tip) else Fork(t.h, s, x.key, tip, lower)
  }

  function InsertTree(t: Tree, x: Leaf, added: nat, moved: nat): (r: Tree)
    requires Wf(t)
    ensures r.h == t.h
  {
    if Clobbers(t, x.key) then Tip(t.h, x)
    else if Descends(t, x.key) then
      var c := InsertTree(Child(t, x.key), x, added, moved);
      if Bit(x.key, t.plen) then t.(right := c) else t.(left := c)
    else Split(t, x, added, moved)
  }

  lemma LeavesRelocated(t: Tree, h: nat)
    ensures Leaves(t.(h := h)) == Leaves(t)
    ensures Wf(t) <==> Wf(t.(h := h))
  {
  }

  /** Where insertion stops, the new key leaves every old key at the same bit. */
  lemma SplitDiverges(t: Tree, x: Leaf)
    requires Wf(t) && x.key < TWO128 && !Clobbers(t, x.key) && !Descends(t, x.key)
    ensures var s := SharedPrefixLen(RootKey(t), x.key);
            s < 128 && Under(t, s, x.key) && BitIs(t, s, !Bit(x.key, s))
  {
    var s := SharedPrefixLen(RootKey(t), x.key);
    SharedMeaning(RootKey(t), x.key);
    forall y | y in Leaves(t)
      ensures s < 128 && Prefix(y.key, s) == Prefix(x.key, s) && Bit(y.key, s) == !Bit(x.key, s)
    {
      if t.Fork? {
        PrefixShorter(y.key, t.key, t.plen, s);
      }
    }
    assert Leaves(t)[0] in Leaves(t);
  }

  lemma SplitIsInsert(t: Tree, x: Leaf, added: nat, moved: nat)
    requires Wf(t) && x.key < TWO128 && !Clobbers(t, x.key) && !Descends(t, x.key)
    ensures Leaves(Split(t, x, added, moved)) == Insert(Leaves(t), x)
    ensures Wf(Split(t, x, added, moved))
    ensures Find(Leaves(t), x.key).None?
  {
    SplitDiverges(t, x);
    LeavesRelocated(t, moved);
    var s := SharedPrefixLen(RootKey(t), x.key);
    var lower := t.(h := moved);
    assert Under(lower, s, x.key) && BitIs(lower, s, !Bit(x.key, s));
    if Bit(x.key, s) {
      forall y | y in Leaves(t) ensures y.key < x.key {
        CritBitOrders(y.key, x.key, s);
      }
      InsertRight(Leaves(t), [], x);
      assert Leaves(t) + [] == Leaves(t);
    } else {
      forall y | y in Leaves(t) ensures x.key < y.key {
        CritBitOrders(x.key, y.key, s);
      }
      InsertLeft([], Leaves(t), x);
      assert [] + Leaves(t) == Leaves(t);
    }
  }

  /** A descent goes to the only side that may hold the key. */
  lemma DescentSide(t: Tree, x: Leaf)
    requires Wf(t) && Descends(t, x.key) && x.key < TWO128
    ensures Prefix(x.key, t.plen) == Prefix(t.key, t.plen)
    ensures Bit(x.key, t.plen) ==> AllBelow(Leaves(t.left), x.key)
    ensures !Bit(x.key, t.plen) ==> AllAbove(x.key, Leaves(t.right))
  {
    SharedMeaning(t.key, x.key);
    PrefixShorter(t.key, x.key, SharedPrefixLen(t.key, x.key), t.plen);
    if Bit(x.key, t.plen) {
      forall y | y in Leaves(t.left) ensures y.key < x.key {
        CritBitOrders(y.key, x.key, t.plen);
      }
    } else {
      forall y | y in Leaves(t.right) ensures x.key < y.key {
        CritBitOrders(x.key, y.key, t.plen);
      }
    }
  }

  /** Insertion into the tree is map update on its leaves, and keeps the invariant. */
  lemma {:induction false} InsertTreeIsInsert(t: Tree, x: Leaf, added: nat, moved: nat)
    requires Wf(t) && x.key < TWO128
    ensures Leaves(InsertTree(t, x, added, moved)) == Insert(Leaves(t), x)
    ensures Wf(InsertTree(t, x, added, moved))
    decreases t
  {
    if Clobbers(t, x.key) {
    } else if Descends(t, x.key) {
      DescentSide(t, x);
      InsertTreeIsInsert(Child(t, x.key), x, added, moved);
      if Bit(x.key, t.plen) {
        InsertRight(Leaves(t.left), Leaves(t.right), x);
      } else {
        InsertLeft(Leaves(t.left), Leaves(t.right), x);
      }
    } else {
      SplitIsInsert(t, x, added, moved);
    }
  }

  /** The insertion point decides between replacing a leaf and adding one. */
  lemma {:induction false} InsertPointFinds(t: Tree, x: Leaf)
    requires Wf(t) && x.key < TWO128
    ensures var p := InsertPoint(t, x.key);
            Find(Leaves(t), x.key) == if Clobbers(p, x.key) then Some(p.leaf) else None
    decreases t
  {
    if Descends(t, x.key) {
      DescentSide(t, x);
      InsertPointFinds(Child(t, x.key), x);
      if Bit(x.key, t.plen) {
        assert !HasKey(Leaves(t.left), x.key);
        RemoveRight(Leaves(t.left), Leaves(t.right), x.key);
      } else if HasKey(Leaves(t.left), x.key) {
        RemoveLeft(Leaves(t.left), Leaves(t.right), x.key);
      } else {
        RemoveRight(Leaves(t.left), Leaves(t.right), x.key);
        FindBelow(Leaves(t.right), x.key);
      }
    } else if !Clobbers(t, x.key) {
      SplitIsInsert(t, x, 0, 0);
    }
  }

  // ----- removal -----

  /** The fork whose slot receives the sibling of the removed tip. */
  function RemovePoint(t: Tree, key: nat): (p: Tree)
    requires Wf(t) && t.Fork?
    ensures p.Fork? && Wf(p) && Child(p, key).Tip?
    decreases t
  {
    if Child(t, key).Tip? then t else RemovePoint(Child(t, key), key)
  }

  function Sibling(t: Tree, key: nat): (c: Tree)
    requires t.Fork? && t.plen < 128
  {
    if Bit(key, t.plen) then t.left else t.right
  }

  function RemoveTree(t: Tree, key: nat): (r: Tree)
    requires Wf(t) && t.Fork?
    ensures r.h == t.h
    decreases t
  {
    if Child(t, key).Tip? then Sibling(t, key).(h := t.h)
    else
      var c := RemoveTree(Child(t, key), key);
      if Bit(key, t.plen) then t.(right := c) else t.(left := c)
  }

  lemma ChildHoldsKey(t: Tree, x: Leaf)
    requires Wf(t) && t.Fork? && x in Leaves(t)
    ensures x in Leaves(Child(t, x.key)) && !HasKey(Leaves(Sibling(t, x.key)), x.key)
  {
  }

  /** Removal from the tree is map deletion on its leaves, and keeps the invariant. */
  lemma {:induction false} RemoveTreeIsRemove(t: Tree, x: Leaf)
    requires Wf(t) && t.Fork? && x in Leaves(t)
    ensures Leaves(RemoveTree(t, x.key)) == Remove(Leaves(t), x.key)
    ensures Wf(RemoveTree(t, x.key))
    decreases t
  {
    var c, other := Child(t, x.key), Sibling(t, x.key);
    ChildHoldsKey(t, x);
    assert HasKey(Leaves(c), x.key);
    if Bit(x.key, t.plen) {
      RemoveRight(Leaves(t.left), Leaves(t.right), x.key);
    } else {
      RemoveLeft(Leaves(t.left), Leaves(t.right), x.key);
    }
    if c.Tip? {
      LeavesRelocated(other, t.h);
    } else {
      RemoveTreeIsRemove(c, x);
    }
  }

  /** The tip under the removal point is the one the walk reaches. */
  lemma {:induction false} RemovePointFinds(t: Tree, key: nat)
    requires Wf(t) && t.Fork?
    ensures Child(RemovePoint(t, key), key) == Walk(t, key)
    decreases t
  {
    if Child(t, key).Fork? {
      RemovePointFinds(Child(t, key), key);
    }
  }

  /** The walk decides membership. */
  lemma WalkDecides(t: Tree, key: nat)
    requires Wf(t)
    ensures Find(Leaves(t), key) == if Walk(t, key).leaf.key == key then Some(Walk(t, key).leaf) else None
  {
    var f := Find(Leaves(t), key);
    if f.Some? {
      WalkFinds(t, f.value);
    } else {
      assert Walk(t, key).leaf in Leaves(t);
    }
  }

  // ----- space -----

  /** A tree of n leaves occupies exactly 2n - 1 slots. */
  lemma {:induction false} HandleCount(t: Tree)
    requires Distinct(t)
    ensures |Handles(t)| == 2 * |Leaves(t)| - 1
  {
    if t.Fork? {
      HandleCount(t.left);
      HandleCount(t.right);
      var both := Handles(t.left) + Handles(t.right);
      assert |both| == |Handles(t.left)| + |Handles(t.right)|;
      assert Handles(t) == {t.h} + both;
      assert |Handles(t)| == 1 + |both|;
    }
  }

  lemma {:induction false} InsertTreeHandles(t: Tree, x: Leaf, added: nat, moved: nat)
    requires Wf(t) && Distinct(t)
    requires added != moved && added !in Handles(t) && moved !in Handles(t)
    ensures var r := InsertTree(t, x, added, moved);
            && Distinct(r)
            && Handles(r) == if Clobbers(InsertPoint(t, x.key), x.key) then Handles(t) else Handles(t) + {added, moved}
    decreases t
  {
    if Descends(t, x.key) {
      InsertTreeHandles(Child(t, x.key), x, added, moved);
    }
  }

  lemma {:induction false} RemoveTreeHandles(t: Tree, key: nat)
    requires Wf(t) && Distinct(t) && t.Fork?
    ensures var r, p := RemoveTree(t, key), RemovePoint(t, key);
            && Distinct(r)
            && Handles(r) == Handles(t) - {Child(p, key).h, Sibling(p, key).h}
            && Child(p, key).h != Sibling(p, key).h
            && Child(p, key).h in Handles(t) && Sibling(p, key).h in Handles(t)
    decreases t
  {
    if Child(t, key).Fork? {
      RemoveTreeHandles(Child(t, key), key);
    }
  }
}
