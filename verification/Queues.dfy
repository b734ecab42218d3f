/**
 The ring buffers of dex/src/state.rs that hold requests and events.  `contents`
 is the queue from front to back.
 */
module Queues {
  import opened Numbers
  import opened Orders

  /** One turn around the ring. */
  lemma OneTurn(a: nat, n: nat)
    requires 0 < n && a < 2 * n
    ensures a % n == if a < n then a else a - n
  {
    DivisionUnique(a, n, if a < n then 0 else 1, if a < n then a else a - n);
  }

  class Queue<T(0)> {
    const buf: array<T>
    /** Event queues number their pushes; for request queues the hook does nothing. */
    const numbered: bool
    var head: nat
    var count: nat
    var seqNum: nat
    ghost var contents: seq<T>

    ghost predicate Valid()
      reads this, buf
    {
      && count <= buf.Length
      && (buf.Length > 0 ==> head < buf.Length)
      && |contents| == count
      && forall i :: 0 <= i < count ==> contents[i] == buf[Slot(i)]
    }

    /** Buffer index of the i-th element from the front. */
    ghost function Slot(i: nat): (k: nat)
      requires count <= buf.Length && head < buf.Length && i <= buf.Length
      reads this
      ensures k < buf.Length
    {
      if head + i < buf.Length then head + i else head + i - buf.Length
    }

    lemma WithinCapacity()
      requires Valid()
      ensures |contents| <= buf.Length
    {
    }

    constructor (capacity: nat, numbered: bool)
      ensures Valid() && contents == [] && buf.Length == capacity && this.numbered == numbered && seqNum == 0
      ensures fresh(buf)
    {
      buf := new T[capacity];
      this.numbered := numbered;
      head, count, seqNum, contents := 0, 0, 0, [];
    }

    method PushBack(value: T) returns (ok: bool)
      requires Valid()
      modifies this`count, this`seqNum, this`contents, buf
      ensures Valid()
      ensures ok <==> |old(contents)| < buf.Length
      ensures contents == if ok then old(contents) + [value] else old(contents)
      ensures seqNum == if ok && numbered then old(seqNum) + 1 else old(seqNum)
    {
      if count == buf.Length {
        return false;
      }
      var slot := (head + count) % buf.Length;
      OneTurn(head + count, buf.Length);
      buf[slot] := value;
      count := count + 1;
      if numbered {
        seqNum := seqNum + 1;
      }
      contents := contents + [value];
      return true;
    }

    /** gen_seq_num of a request queue. */
    method TakeSeqNum() returns (n: nat)
      requires Valid()
      modifies this`seqNum
      ensures Valid() && n == old(seqNum) && seqNum == n + 1
    {
      n := seqNum;
      seqNum := seqNum + 1;
    }

    method PeekFront() returns (r: Option<T>)
      requires Valid()
      ensures r == if contents == [] then None else Some(contents[0])
    {
      if count == 0 {
        return None;
      }
      return Some(buf[head]);
    }

    /** Assignment through peek_front_mut. */
    method ReplaceFront(value: T)
      requires Valid() && contents != []
      modifies this`contents, buf
      ensures Valid() && contents == [value] + old(contents)[1..]
    {
      buf[head] := value;
      contents := [value] + contents[1..];
    }

    method PopFront() returns (r: Option<T>)
      requires Valid()
      modifies this`head, this`count, this`contents
      ensures Valid()
      ensures r == if old(contents) == [] then None else Some(old(contents)[0])
      ensures contents == if old(contents) == [] then [] else old(contents)[1..]
    {
      if count == 0 {
        return None;
      }
      r := Some(buf[head]);
      count := count - 1;
      OneTurn(head + 1, buf.Length);
      head := (head + 1) % buf.Length;
      contents := contents[1..];
    }

    /** Take back the pushes beyond `desiredLen`. */
    method RevertPushes(desiredLen: nat) returns (ok: bool)
      requires Valid() && (numbered ==> |contents| <= seqNum + desiredLen)
      modifies this`count, this`seqNum, this`contents
      ensures Valid()
      ensures ok <==> desiredLen <= |old(contents)|
      ensures contents == if ok then old(contents)[..desiredLen] else old(contents)
      ensures seqNum == if ok && numbered then old(seqNum) - (|old(contents)| - desiredLen) else old(seqNum)
    {
      if desiredLen > count {
        return false;
      }
      if numbered {
        seqNum := seqNum - (count - desiredLen);
      }
      count := desiredLen;
      contents := contents[..desiredLen];
      return true;
    }
  }
}
