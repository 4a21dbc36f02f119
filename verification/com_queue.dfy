/**
 The array deque shared by the microphone manager and the report pump: FIFO posts at the trail,
 LIFO posts and pops at the head, one slot always unused.
 */
module ComQueue {

  class TComQueue<T(0)> {
    var head: nat
    var trail: nat
    var count: nat
    const size: nat
    const buf: array<T>
    /** The queued elements, oldest first. */
    ghost var items: seq<T>

    ghost predicate Valid()
      reads this, buf
    {
      && buf.Length == size
      && head < size && trail < size
      && count == Distance(size, head, trail)
      && items == Window(buf[..], head, trail)
    }

    constructor (n: nat)
      requires n >= 1
      ensures Valid() && fresh(buf)
      ensures size == n && items == []
    {
      size := n;
      buf := new T[n];
      head, trail, count := 0, 0, 0;
      items := [];
    }

    /** The count kept beside the two indices is their distance modulo the size. */
    lemma CountIsModular()
      requires Valid()
      ensures count == (trail - head) % size
    {
      DistanceIsModular(size, head, trail);
    }

    method IsEmpty() returns (r: bool)
      requires Valid()
      ensures r <==> items == []
      ensures r <==> count == 0
    {
      r := head == trail;
    }

    method IsFull() returns (r: bool)
      requires Valid()
      ensures r <==> |items| == size - 1
      ensures r <==> count == size - 1
    {
      Successor(size, trail);
      r := (trail + 1) % size == head;
    }

    method PostFifo(x: T) returns (ok: bool)
      requires Valid()
      modifies this, buf
      ensures Valid()
      ensures ok <==> |old(items)| < size - 1
      ensures items == if ok then old(items) + [x] else old(items)
    {
      var full := IsFull();
      if !full {
        Successor(size, trail);
        buf[trail] := x;
        trail := (trail + 1) % size;
        count := count + 1;
        assert buf[..] == old(buf[..])[old(trail) := x];
        items := items + [x];
        WindowGrowsAtTrail(old(buf[..]), head, old(trail), trail, x);
        return true;
      }
      return false;
    }

    /** The index half of a head post: the head moves back, or on an empty queue the trail moves on. */
    method MakeHeadRoom()
      requires Valid() && count < size - 1
      modifies this`head, this`trail
      ensures items == old(items)
      ensures head < size && trail < size && Distance(size, head, trail) == count + 1
      ensures count != 0 ==> trail == old(trail) && head == if old(head) == 0 then size - 1 else old(head) - 1
      ensures count == 0 ==> head == old(head)
    {
      var empty := IsEmpty();
      if !empty {
        if head == 0 {
          head := size - 1;
        } else {
          head := head - 1;
          Small(size, head);
          head := head % size;
        }
      } else {
        Successor(size, trail);
        trail := (trail + 1) % size;
      }
    }

    method PostLifo(x: T) returns (ok: bool)
      requires Valid()
      modifies this, buf
      ensures Valid()
      ensures ok <==> |old(items)| < size - 1
      ensures items == if ok then [x] + old(items) else old(items)
    {
      var full := IsFull();
      if !full {
        MakeHeadRoom();
        buf[head] := x;
        count := count + 1;
        assert buf[..] == old(buf[..])[head := x];
        items := [x] + items;
        WindowGrowsAtHead(old(buf[..]), old(head), old(trail), head, trail, x);
        return true;
      }
      return false;
    }

    /** On an empty queue the caller's variable keeps its value. */
    method PopFifo(prev: T) returns (ok: bool, x: T)
      requires Valid()
      modifies this
      ensures Valid()
      ensures ok <==> old(items) != []
      ensures ok ==> [x] + items == old(items)
      ensures !ok ==> x == prev && items == old(items)
    {
      var empty := IsEmpty();
      if !empty {
        x := buf[head];
        Successor(size, head);
        head := (head + 1) % size;
        count := count - 1;
        items := items[1..];
        return true, x;
      }
      return false, prev;
    }
  }

  /** The elements from one index of a ring up to another. */
  function Window<T>(b: seq<T>, head: nat, trail: nat): (w: seq<T>)
    requires head < |b| && trail < |b|
    ensures |w| == Distance(|b|, head, trail)
  {
    if head <= trail then b[head..trail] else b[head..] + b[..trail]
  }

  /** One turn of a walk from the head: the slot read is the next element. */
  lemma WindowStep<T>(b: seq<T>, pos: nat, trail: nat)
    requires pos < |b| && trail < |b| && pos != trail
    ensures (pos + 1) % |b| < |b|
    ensures Window(b, pos, trail) == [b[pos]] + Window(b, (pos + 1) % |b|, trail)
  {
    Successor(|b|, pos);
    if pos + 1 == |b| {
      assert b[pos..] + b[..trail] == [b[pos]] + b[..trail];
    } else if pos < trail {
      assert b[pos..trail] == [b[pos]] + b[pos + 1..trail];
    } else {
      assert b[pos..] == [b[pos]] + b[pos + 1..];
      assert b[pos..] + b[..trail] == [b[pos]] + (b[pos + 1..] + b[..trail]);
    }
  }

  lemma WindowGrowsAtHead<T>(b: seq<T>, head: nat, trail: nat, head': nat, trail': nat, x: T)
    requires head < |b| && trail < |b| && head' < |b| && trail' < |b|
    requires Distance(|b|, head', trail') == Distance(|b|, head, trail) + 1
    requires head != trail ==> trail' == trail
    requires head == trail ==> head' == head
    ensures Window(b[head' := x], head', trail') == [x] + Window(b, head, trail)
  {
    var c := b[head' := x];
    if head == trail {
      if head' < trail' { assert c[head'..trail'] == [x]; } else { assert c[head'..] + c[..trail'] == [x]; }
    } else if head' < trail {
      assert c[head'..trail] == [x] + b[head'+1..trail];
    } else {
      assert c[head'..] == [x] + b[head'+1..];
      assert c[..trail] == b[..trail];
      assert [x] + b[head'+1..] + b[..trail] == [x] + (b[head'+1..] + b[..trail]);
    }
  }

  lemma WindowGrowsAtTrail<T>(b: seq<T>, head: nat, trail: nat, trail': nat, x: T)
    requires head < |b| && trail < |b| && trail' < |b|
    requires Distance(|b|, head, trail') == Distance(|b|, head, trail) + 1
    ensures Window(b[trail := x], head, trail') == Window(b, head, trail) + [x]
  {}

  // ----- Indices modulo the size -----

  function Distance(size: nat, head: nat, trail: nat): nat
    requires head < size
  {
    if head <= trail then trail - head else trail + size - head
  }

  lemma Successor(size: nat, x: nat)
    requires x < size
    ensures (x + 1) % size == if x + 1 == size then 0 else x + 1
  {}

  lemma Small(size: nat, x: nat)
    requires x < size
    ensures x % size == x
  {}

  lemma DistanceIsModular(size: nat, head: nat, trail: nat)
    requires head < size && trail < size
    ensures Distance(size, head, trail) == (trail - head) % size
  {}
}
