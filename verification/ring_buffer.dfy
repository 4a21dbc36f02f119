/**
 The character ring between the port and the ARCS parser. All of its slots are usable; a flag
 tells an empty ring from a full one when the two indices meet.
 */
module RingBuffer {
  import opened Words
  import ComQueue

  /** The octets held in a ring, oldest first. */
  function Stored(b: seq<Octet>, head: nat, trail: nat, empty: bool): (s: seq<Octet>)
    requires head < |b| && trail < |b|
    ensures |s| <= |b|
    ensures !empty && head == trail ==> |s| == |b|
  {
    if empty then [] else if head < trail then b[head..trail] else b[head..] + b[..trail]
  }

  class TCharRingBuf {
    var empty: bool
    var head: nat
    var trail: nat
    const bufSize: nat
    const pBuf: array<Octet>
    /** Every octet ever accepted, and every octet ever read. */
    ghost var saved: seq<Octet>
    ghost var got: seq<Octet>
    /** The octets waiting, oldest first. */
    ghost var items: seq<Octet>

    ghost predicate Valid()
      reads this, pBuf
    {
      && pBuf.Length == bufSize
      && head < bufSize && trail < bufSize
      && (empty ==> head == trail)
      && items == Stored(pBuf[..], head, trail, empty)
      && saved == got + items
    }

    constructor (size: nat, buf: array<Octet>)
      requires buf.Length == size >= 1
      ensures Valid() && pBuf == buf && bufSize == size
      ensures items == [] && saved == [] && got == []
    {
      empty := true;
      bufSize := size;
      head, trail := 0, 0;
      pBuf := buf;
      saved, got, items := [], [], [];
    }

    method IsFull() returns (full: bool)
      requires Valid()
      ensures full <==> |items| == bufSize
    {
      full := !empty && head == trail;
    }

    method SaveChar(ch: Octet) returns (ok: bool)
      requires Valid()
      modifies this, pBuf
      ensures Valid() && got == old(got)
      ensures ok <==> |old(items)| < bufSize
      ensures items == if ok then old(items) + [ch] else old(items)
      ensures saved == if ok then old(saved) + [ch] else old(saved)
    {
      ok := false;
      if empty || head != trail {
        ComQueue.Successor(bufSize, trail);
        StoredGrows(pBuf[..], head, trail, empty, ch);
        pBuf[trail] := ch;
        assert pBuf[..] == old(pBuf[..])[trail := ch];
        trail := (trail + 1) % bufSize;
        if empty { empty := false; }
        saved, items := saved + [ch], items + [ch];
        ok := true;
      }
    }

    /** On an empty ring the caller's variable keeps its value. */
    method GetChar(prev: Octet) returns (ok: bool, ch: Octet)
      requires Valid()
      modifies this
      ensures Valid() && saved == old(saved)
      ensures ok <==> old(items) != []
      ensures ok ==> old(items) == [ch] + items && got == old(got) + [ch]
      ensures !ok ==> ch == prev && items == old(items) && got == old(got)
    {
      ok, ch := false, prev;
      if !empty {
        ComQueue.Successor(bufSize, head);
        StoredShrinks(pBuf[..], head, trail);
        ch := pBuf[head];
        head := (head + 1) % bufSize;
        if head == trail { empty := true; }
        got, items := got + [ch], items[1..];
        ok := true;
      }
    }

    lemma HoldsNoMore()
      requires Valid()
      ensures |items| <= bufSize
    {}

    /** The receiving loop: of the octets of one packet, those that still fit are kept, in order,
        and the rest are lost. */
    method SaveAll(bytes: seq<Octet>)
      requires Valid()
      modifies this, pBuf
      ensures Valid() && got == old(got)
      ensures var kept := if |bytes| <= bufSize - |old(items)| then bytes else bytes[..bufSize - |old(items)|];
              items == old(items) + kept && saved == old(saved) + kept
    {
      hide Valid, Stored;
      HoldsNoMore();
      var pos := 0;
      ghost var n, kept := bufSize - |items|, 0;
      while pos < |bytes|
        invariant pos <= |bytes| && Valid() && got == old(got)
        invariant 0 <= kept <= pos && kept == if pos <= n then pos else n
        invariant items == old(items) + bytes[..kept]
        invariant saved == old(saved) + bytes[..kept]
      {
        var ok := SaveChar(bytes[pos]);
        if ok {
          assert bytes[..kept] + [bytes[pos]] == bytes[..kept + 1];
          kept := kept + 1;
        }
        pos := pos + 1;
      }
      assert bytes[..|bytes|] == bytes;
    }

    /** Whatever calls were made, what was read is a prefix of what was accepted. */
    lemma ReadsArePrefix()
      requires Valid()
      ensures got <= saved
    {}
  }

  lemma StoredGrows(b: seq<Octet>, head: nat, trail: nat, empty: bool, ch: Octet)
    requires head < |b| && trail < |b|
    requires if empty then head == trail else head != trail
    ensures var trail' := if trail + 1 == |b| then 0 else trail + 1;
            Stored(b[trail := ch], head, trail', false) == Stored(b, head, trail, empty) + [ch]
  {
    var b' := b[trail := ch];
    if trail + 1 == |b| {
      assert b'[head..] + b'[..0] == b[head..trail] + [ch];
    } else if head <= trail {
      assert b'[head..trail + 1] == b[head..trail] + [ch];
    } else {
      assert b'[head..] + b'[..trail + 1] == b[head..] + b[..trail] + [ch];
    }
  }

  lemma StoredShrinks(b: seq<Octet>, head: nat, trail: nat)
    requires head < |b| && trail < |b|
    ensures var head' := if head + 1 == |b| then 0 else head + 1;
            Stored(b, head, trail, false) == [b[head]] + Stored(b, head', trail, head' == trail)
  {
    if head + 1 == |b| {
      assert b[head..] + b[..trail] == [b[head]] + b[0..trail];
    } else if head < trail {
      assert b[head..trail] == [b[head]] + b[head + 1..trail];
    } else {
      assert b[head..] + b[..trail] == [b[head]] + (b[head + 1..] + b[..trail]);
    }
  }
}
