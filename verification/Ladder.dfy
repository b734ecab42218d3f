/**
 One side of the book as an ordered map from order id to leaf, listed in
 ascending key order.  This is what the slab tree implements and what the
 matching engine is written against.
 */
module Ladder {
  import opened Orders

  ghost predicate Ascending(s: seq<Leaf>) {
    forall i, j :: 0 <= i < j < |s| ==> s[i].key < s[j].key
  }

  ghost predicate AllAbove(key: nat, s: seq<Leaf>) {
    forall x :: x in s ==> key < x.key
  }

  ghost predicate AllBelow(s: seq<Leaf>, key: nat) {
    forall x :: x in s ==> x.key < key
  }

  ghost predicate HasKey(s: seq<Leaf>, key: nat) {
    exists x :: x in s && x.key == key
  }

  /** Map update: a leaf with the same key is replaced. */
  function Insert(s: seq<Leaf>, x: Leaf): (r: seq<Leaf>)
    ensures forall y :: y in r ==> y == x || y in s
    ensures x in r
  {
    if s == [] then [x]
    else if x.key < s[0].key then [x] + s
    else if x.key == s[0].key then [x] + s[1..]
    else [s[0]] + Insert(s[1..], x)
  }

  /** Map lookup. */
  function Find(s: seq<Leaf>, key: nat): (r: Option<Leaf>)
    ensures r.Some? ==> r.value in s && r.value.key == key
    ensures r.None? ==> !HasKey(s, key)
  {
    if s == [] then None
    else if s[0].key == key then Some(s[0])
    else Find(s[1..], key)
  }

  /** Map deletion. */
  function Remove(s: seq<Leaf>, key: nat): (r: seq<Leaf>)
    ensures forall y :: y in r ==> y in s
  {
    if s == [] then []
    else if s[0].key == key then s[1..]
    else [s[0]] + Remove(s[1..], key)
  }

  lemma AscendingConcat(a: seq<Leaf>, b: seq<Leaf>, key: nat)
    requires Ascending(a) && Ascending(b)
    requires forall x :: x in a ==> x.key < key
    requires forall y :: y in b ==> key <= y.key
    ensures Ascending(a + b)
  {
  }

  lemma {:induction false} InsertAscending(s: seq<Leaf>, x: Leaf)
    requires Ascending(s)
    ensures Ascending(Insert(s, x))
  {
    if s != [] && s[0].key < x.key {
      InsertAscending(s[1..], x);
      assert forall y :: y in Insert(s[1..], x) ==> s[0].key < y.key;
    } else if s != [] && x.key < s[0].key {
      assert forall y :: y in s ==> x.key < y.key;
    }
  }

  lemma {:induction false} RemoveAscending(s: seq<Leaf>, key: nat)
    requires Ascending(s)
    ensures Ascending(Remove(s, key))
    ensures !HasKey(Remove(s, key), key)
  {
    if s != [] && s[0].key != key {
      RemoveAscending(s[1..], key);
      assert forall y :: y in Remove(s[1..], key) ==> s[0].key < y.key;
    }
  }

  /** The three operations obey the laws of a map. */
  lemma {:induction false} FindAfterInsert(s: seq<Leaf>, x: Leaf, key: nat)
    requires Ascending(s)
    ensures Find(Insert(s, x), key) == if key == x.key then Some(x) else Find(s, key)
    ensures |Insert(s, x)| == if Find(s, x.key).Some? then |s| else |s| + 1
  {
    if s == [] {
    } else if x.key < s[0].key {
      assert ([x] + s)[1..] == s;
      FindBelow(s, x.key);
    } else if x.key == s[0].key {
      assert ([x] + s[1..])[1..] == s[1..];
    } else {
      FindAfterInsert(s[1..], x, key);
      assert ([s[0]] + Insert(s[1..], x))[1..] == Insert(s[1..], x);
    }
  }

  lemma FindBelow(s: seq<Leaf>, key: nat)
    requires AllAbove(key, s)
    ensures Find(s, key).None?
  {
  }

  lemma {:induction false} FindAfterRemove(s: seq<Leaf>, gone: nat, key: nat)
    requires Ascending(s)
    ensures Find(Remove(s, gone), key) == if key == gone then None else Find(s, key)
    ensures |Remove(s, gone)| == if Find(s, gone).Some? then |s| - 1 else |s|
  {
    if s == [] {
    } else if s[0].key == gone {
      if key == gone {
        FindBelow(s[1..], key);
      }
    } else {
      FindAfterRemove(s[1..], gone, key);
      assert ([s[0]] + Remove(s[1..], gone))[1..] == Remove(s[1..], gone);
    }
  }

  /** Deleting a leaf and inserting it again restores the map. */
  lemma {:induction false} ReinsertRestores(s: seq<Leaf>, key: nat)
    requires Ascending(s) && Find(s, key).Some?
    ensures Insert(Remove(s, key), Find(s, key).value) == s
  {
    var x := Find(s, key).value;
    if s[0].key == key {
      if |s| > 1 {
        assert x.key < s[1].key;
      }
      assert [s[0]] + s[1..] == s;
    } else {
      ReinsertRestores(s[1..], key);
      assert x in s[1..];
      var r := [s[0]] + Remove(s[1..], key);
      assert r[1..] == Remove(s[1..], key);
      assert Insert(r, x) == [s[0]] + Insert(r[1..], x);
      assert [s[0]] + s[1..] == s;
    }
  }

  // ----- how the operations act on a concatenation -----

  lemma {:induction false} InsertLeft(a: seq<Leaf>, b: seq<Leaf>, x: Leaf)
    requires AllAbove(x.key, b)
    ensures Insert(a + b, x) == Insert(a, x) + b
  {
    if a == [] {
      assert a + b == b;
      assert b != [] ==> b[0] in b;
    } else {
      assert (a + b)[1..] == a[1..] + b;
      InsertLeft(a[1..], b, x);
    }
  }

  lemma {:induction false} InsertRight(a: seq<Leaf>, b: seq<Leaf>, x: Leaf)
    requires AllBelow(a, x.key)
    ensures Insert(a + b, x) == a + Insert(b, x)
  {
    if a == [] {
      assert a + b == b;
    } else {
      assert a[0] in a;
      assert (a + b)[1..] == a[1..] + b;
      InsertRight(a[1..], b, x);
    }
  }

  lemma {:induction false} RemoveLeft(a: seq<Leaf>, b: seq<Leaf>, key: nat)
    requires HasKey(a, key)
    ensures Remove(a + b, key) == Remove(a, key) + b
    ensures Find(a + b, key) == Find(a, key)
  {
    assert (a + b)[1..] == a[1..] + b;
    if a[0].key != key {
      var x :| x in a && x.key == key;
      assert x in a[1..];
      RemoveLeft(a[1..], b, key);
    }
  }

  lemma {:induction false} RemoveRight(a: seq<Leaf>, b: seq<Leaf>, key: nat)
    requires !HasKey(a, key)
    ensures Remove(a + b, key) == a + Remove(b, key)
    ensures Find(a + b, key) == Find(b, key)
  {
    if a == [] {
      assert a + b == b;
    } else {
      assert a[0] in a;
      assert (a + b)[1..] == a[1..] + b;
      RemoveRight(a[1..], b, key);
    }
  }
}
