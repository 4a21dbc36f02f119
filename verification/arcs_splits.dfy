/**
 Frames that reach the ARCS parser in two calls, and what a completed message says of the octets.
 The second call counts the data octets from a value of its own, so a frame cut behind its header
 is received only under an exact condition on the octets and on that value.
 */
module ArcsSplits {
  import opened Words
  import opened ArcsFrame
  import opened UserTimer
  import opened ArcsParser

  // ----- What completes a message -----

  /** The octets of the message that the parser has taken, while it takes them in order. */
  ghost function Taken(r: Rx): (s: seq<Octet>)
    requires r.msgLen <= PRO_COMMON_LEN + PRO_QT_MAX
    ensures |s| == r.msgLen
  {
    if r.msgLen <= PRO_COMMON_LEN then Header(r.msg)[..r.msgLen]
    else Header(r.msg) + r.msg.dataBuf[..r.msgLen - PRO_COMMON_LEN]
  }

  ghost predicate All(s: seq<Octet>, x: Octet) {
    forall i :: 0 <= i < |s| ==> s[i] == x
  }

  /** The parser between octets is where the octets `p` of this drain have brought it: they end with
      the octets of the message so far, and with check octets once it is complete. */
  ghost predicate Follows(r: Rx, d: Short, p: seq<Octet>, a: seq<Octet>, z: seq<Octet>) {
    && Ok(r)
    && (r.msgLen == 0 ==> r.recvOver ==> p == [])
    && (r.msgLen > 0 ==>
          && r.msg.head == PROTOCAL_QT_TYPE && r.msgLen <= PRO_COMMON_LEN + PRO_QT_MAX
          && (r.msgLen >= PRO_COMMON_LEN ==> d == r.msgLen - PRO_COMMON_LEN <= r.msg.dataLen)
          && p == a + Taken(r) + z
          && (if r.recvOver then z != [] && d == r.msg.dataLen && r.msgLen >= PRO_COMMON_LEN && All(z, Check(r.msg))
             else z == []))
  }

  ghost predicate Explained(r: Rx, d: Short, p: seq<Octet>) {
    exists a, z :: Follows(r, d, p, a, z)
  }

  /** A taken octet that belongs to the message. */
  lemma TakenGrows(r: Rx, d: Short, ch: Octet, ti: Word, ts: Word)
    requires Ok(r) && 0 < r.msgLen
    requires r.msgLen >= PRO_COMMON_LEN ==> d == r.msgLen - PRO_COMMON_LEN < r.msg.dataLen
    ensures var r' := Feed(r, d, ch, ti, ts).0;
            r'.msgLen == 0 || (r'.msgLen == r.msgLen + 1 <= PRO_COMMON_LEN + PRO_QT_MAX && Taken(r') == Taken(r) + [ch])
  {
    var r' := Feed(r, d, ch, ti, ts).0;
    if r.msgLen >= PRO_COMMON_LEN {
      assert r'.msg.dataBuf[..d + 1] == r.msg.dataBuf[..d] + [ch];
      assert Header(r'.msg) == Header(r.msg);
    }
  }

  lemma FeedFollows(r: Rx, d: Short, ch: Octet, ti: Word, ts: Word, p: seq<Octet>)
    requires Explained(r, d, p)
    ensures var (r', d') := Feed(r, d, ch, ti, ts); Explained(r', d', p + [ch])
  {
    var a, z :| Follows(r, d, p, a, z);
    var (r', d') := Feed(r, d, ch, ti, ts);
    if r'.msgLen == 0 {
      assert Follows(r', d', p + [ch], [], []);
    } else if r.msgLen == 0 {
      assert Taken(r') == [ch];
      assert p + [ch] == p + Taken(r') + [];
      assert Follows(r', d', p + [ch], p, []);
    } else if r.msgLen >= PRO_COMMON_LEN && d == r.msg.dataLen {
      assert p + [ch] == a + Taken(r') + (z + [ch]);
      assert Follows(r', d', p + [ch], a, z + [ch]);
    } else {
      TakenGrows(r, d, ch, ti, ts);
      assert p + [ch] == a + Taken(r') + [];
      assert Follows(r', d', p + [ch], a, []);
    }
  }

  lemma {:induction false} DrainFollows(r: Rx, d: Short, p: seq<Octet>, bytes: seq<Octet>, clock: Readings, n: nat)
    requires Ok(r) && Explained(r, d, p)
    ensures var (r', d') := Drain(r, d, bytes, clock, n); Explained(r', d', p + bytes)
    decreases |bytes|
  {
    hide Explained, Feed, Ok;
    if bytes == [] {
      assert p + bytes == p;
    } else {
      var next := Feed(r, d, bytes[0], clock(2 * n), clock(2 * n + 1));
      FeedFollows(r, d, bytes[0], clock(2 * n), clock(2 * n + 1), p);
      DrainFollows(next.0, next.1, p + [bytes[0]], bytes[1..], clock, n + 1);
      assert p + [bytes[0]] + bytes[1..] == p + bytes;
    }
  }

  /** The octets are some others, one frame of the message, and repeats of its check octet. */
  ghost predicate EndsWithFrame(bytes: seq<Octet>, m: Msg) {
    Fits(m) && m.head == PROTOCAL_QT_TYPE && exists a, z :: bytes == a + Frame(m) + z && All(z, Check(m))
  }

  /** A drain that begins between messages completes one only by draining the whole frame of it:
      whatever came before, nothing but repeats of the check octet came after. */
  lemma CompletedIsAFrame(r: Rx, d: Short, bytes: seq<Octet>, clock: Readings, n: nat)
    requires Ok(r) && r.msgLen == 0 && bytes != []
    ensures var r' := Drain(r, d, bytes, clock, n).0;
            r'.recvOver ==> EndsWithFrame(bytes, r'.msg)
  {
    hide Drain, Feed, EndsWithFrame;
    var (r', d') := Drain(r, d, bytes, clock, n);
    assert Follows(r, d, [], [], []);
    DrainFollows(r, d, [], bytes, clock, n);
    assert [] + bytes == bytes;
    if r'.recvOver { FollowsFrame(r', d', bytes); }
  }

  lemma FollowsFrame(r: Rx, d: Short, bytes: seq<Octet>)
    requires Explained(r, d, bytes) && r.recvOver && bytes != []
    ensures EndsWithFrame(bytes, r.msg)
  {
    hide Check;
    var a, z :| Follows(r, d, bytes, a, z);
    assert Taken(r) == Header(r.msg) + Data(r.msg);
    assert z == [Check(r.msg)] + z[1..];
    assert Frame(r.msg) == Taken(r) + [Check(r.msg)];
    assert bytes == a + Frame(r.msg) + z[1..];
    assert All(z[1..], Check(r.msg));
  }

  // ----- Frames split between two drains -----

  /** As many octets as are still missing are stored, and complete nothing. */
  lemma {:induction false} TooFewOctets(r: Rx, d: Short, bytes: seq<Octet>, clock: Readings, n: nat)
    requires Ok(r) && r.msgLen >= 7 && d + |bytes| <= r.msg.dataLen && r.msgLen + |bytes| < WORD
    ensures var (r', d') := Drain(r, d, bytes, clock, n);
            && (bytes != [] ==> !r'.recvOver) && d' == d + |bytes| && r'.msgLen == r.msgLen + |bytes|
            && r'.msg == r.msg.(dataBuf := r.msg.dataBuf[..d] + bytes + r.msg.dataBuf[d + |bytes|..])
    decreases |bytes|
  {
    if bytes != [] {
      var (r', d') := Feed(r, d, bytes[0], clock(2 * n), clock(2 * n + 1));
      TooFewOctets(r', d', bytes[1..], clock, n + 1);
      StoredInTurn(r.msg.dataBuf, d, bytes);
    } else {
      assert r.msg.dataBuf[..d] + bytes + r.msg.dataBuf[d..] == r.msg.dataBuf;
    }
  }

  lemma StoredInTurn(b: DataBuf, d: nat, bytes: seq<Octet>)
    requires bytes != [] && d + |bytes| <= PRO_QT_MAX
    ensures var b' := b[d := bytes[0]];
            b'[..d + 1] + bytes[1..] + b'[d + 1 + |bytes[1..]|..] == b[..d] + bytes + b[d + |bytes|..]
  {}

  /** The message is complete, and it is the one that was sent. */
  ghost predicate AsSent(r: Rx, m: Msg)
    requires Fits(m)
  {
    r.recvOver && Fits(r.msg) && Same(r.msg, m)
  }

  /** Fewer octets than its frame has complete no message that was sent. */
  lemma TooShort(r: Rx, d: Short, bytes: seq<Octet>, m: Msg, clock: Readings, n: nat)
    requires Ok(r) && r.msgLen == 0 && !r.recvOver && Fits(m) && |bytes| <= PRO_COMMON_LEN + m.dataLen
    ensures !AsSent(Drain(r, d, bytes, clock, n).0, m)
  {
    if bytes != [] {
      CompletedIsAFrame(r, d, bytes, clock, n);
      hide Drain, Feed, Ok;
      var r' := Drain(r, d, bytes, clock, n).0;
      if r'.recvOver {
        FrameIsLong(bytes, r'.msg);
        SameLength(r'.msg, m);
      }
    }
  }

  lemma SameLength(a: Msg, b: Msg)
    requires Fits(a) && Fits(b)
    ensures Same(a, b) ==> a.dataLen == b.dataLen
  {
    assert |Data(a)| == a.dataLen;
  }

  lemma FrameIsLong(bytes: seq<Octet>, m: Msg)
    requires EndsWithFrame(bytes, m)
    ensures |bytes| > PRO_COMMON_LEN + m.dataLen
  {
    var a, z :| bytes == a + Frame(m) + z && All(z, Check(m));
  }

  /** With all data octets counted, repeats of the check octet keep the message complete. */
  lemma {:induction false} RepeatsComplete(r: Rx, d: Short, bytes: seq<Octet>, clock: Readings, n: nat)
    requires Ok(r) && r.msgLen >= PRO_COMMON_LEN && d == r.msg.dataLen && bytes != [] && All(bytes, Check(r.msg))
    ensures var r' := Drain(r, d, bytes, clock, n).0;
            r'.recvOver && r'.msg == r.msg && r'.sm == Started(SM_MS, clock(2 * (n + |bytes| - 1) + 1))
    decreases |bytes|
  {
    hide Check;
    var next := Feed(r, d, bytes[0], clock(2 * n), clock(2 * n + 1));
    assert next.0.recvOver && next.0.msg == r.msg && next.1 == d && next.0.msgLen == r.msgLen;
    if bytes[1..] != [] { RepeatsComplete(next.0, next.1, bytes[1..], clock, n + 1); }
  }

  /** And nothing else does, as long as what is left is shorter than a frame. */
  lemma {:induction false} OnlyRepeatsComplete(r: Rx, d: Short, bytes: seq<Octet>, m: Msg, clock: Readings, n: nat)
    requires Ok(r) && r.msgLen >= PRO_COMMON_LEN && d == r.msg.dataLen && Fits(m)
    requires bytes != [] && |bytes| <= PRO_COMMON_LEN + m.dataLen + 1 && AsSent(Drain(r, d, bytes, clock, n).0, m)
    ensures Fits(r.msg) && Same(r.msg, m) && All(bytes, Check(r.msg))
    decreases |bytes|
  {
    hide Check;
    var next := Feed(r, d, bytes[0], clock(2 * n), clock(2 * n + 1));
    if bytes[0] != Check(r.msg) {
      TooShort(next.0, next.1, bytes[1..], m, clock, n + 1);
      assert false;
    } else if bytes[1..] != [] {
      OnlyRepeatsComplete(next.0, next.1, bytes[1..], m, clock, n + 1);
      assert bytes == [bytes[0]] + bytes[1..];
    }
  }

  /** Two buffers agree on what comes behind the first j octets of a frame. */
  ghost predicate Agree(a: DataBuf, b: DataBuf, j: nat) {
    forall t :: 0 <= t < PRO_QT_MAX && j <= t + PRO_COMMON_LEN ==> a[t] == b[t]
  }

  lemma AgreeTrans(a: DataBuf, b: DataBuf, c: DataBuf, i: nat, j: nat)
    requires i <= j && Agree(a, b, i) && Agree(b, c, j)
    ensures Agree(a, c, j)
  {}

  /** One octet of a frame is stored where it belongs, or nowhere. */
  lemma FeedLeaves(r: Rx, d: Short, m: Msg, j: nat, ti: Word, ts: Word)
    requires Fits(m) && m.head == PROTOCAL_QT_TYPE && j < PRO_COMMON_LEN + m.dataLen && Gathered(r, d, m, j)
    ensures Agree(r.msg.dataBuf, Feed(r, d, Frame(m)[j], ti, ts).0.msg.dataBuf, j + 1)
  {
    hide Frame, Check;
  }

  /** Taking octets of a frame leaves the rest of the buffer as it was. */
  lemma {:induction false} DrainLeaves(r: Rx, d: Short, m: Msg, i: nat, j: nat, clock: Readings, n: nat)
    requires Fits(m) && m.head == PROTOCAL_QT_TYPE && i <= j <= PRO_COMMON_LEN + m.dataLen
    requires Gathered(r, d, m, i)
    ensures Agree(r.msg.dataBuf, Drain(r, d, Frame(m)[i..j], clock, n).0.msg.dataBuf, j)
    decreases j - i
  {
    if i < j {
      var f := Frame(m)[i..j];
      assert Ok(r);
      hide Feed, Gathered, Frame, Agree, Ok, Fits;
      var next := Feed(r, d, f[0], clock(2 * n), clock(2 * n + 1));
      FeedGathers(r, d, m, i, clock(2 * n), clock(2 * n + 1));
      FeedLeaves(r, d, m, i, clock(2 * n), clock(2 * n + 1));
      assert f[1..] == Frame(m)[i + 1..j];
      DrainLeaves(next.0, next.1, m, i + 1, j, clock, n + 1);
      AgreeTrans(r.msg.dataBuf, next.0.msg.dataBuf, Drain(r, d, f, clock, n).0.msg.dataBuf, i + 1, j);
    }
  }

  /** With k data octets stored and the count starting at d2, the rest of the frame is stored
      d2 - k places too far on, and the octets that then are too many are taken for check octets. The
      message is still the one sent when the places skipped hold the right octets already, the data
      repeats from k on with that distance, and the octets too many all equal the check octet. */
  ghost predicate Rejoins(buf: DataBuf, m: Msg, k: nat, d2: Short)
    requires Fits(m)
  {
    && k <= d2 <= m.dataLen
    && (forall t :: k <= t < d2 ==> buf[t] == m.dataBuf[t])
    && (forall t :: d2 <= t < m.dataLen ==> m.dataBuf[t - (d2 - k)] == m.dataBuf[t])
    && (forall t :: m.dataLen - (d2 - k) <= t < m.dataLen ==> m.dataBuf[t] == Check(m))
  }

  /** What the rest of the data leaves in the buffer. */
  function Shifted(buf: DataBuf, m: Msg, k: nat, d2: Short): (b: DataBuf)
    requires Fits(m) && k <= d2 <= m.dataLen
  {
    buf[..d2] + m.dataBuf[k..k + m.dataLen - d2] + buf[m.dataLen..]
  }

  /** The rest of the data fits in place exactly under the first two conditions. */
  lemma ShiftedFits(buf: DataBuf, m: Msg, k: nat, d2: Short)
    requires Fits(m) && k <= d2 <= m.dataLen && buf[..k] == m.dataBuf[..k]
    ensures Shifted(buf, m, k, d2)[..m.dataLen] == Data(m) <==>
            && (forall t :: k <= t < d2 ==> buf[t] == m.dataBuf[t])
            && (forall t :: d2 <= t < m.dataLen ==> m.dataBuf[t - (d2 - k)] == m.dataBuf[t])
  {
    var s := Shifted(buf, m, k, d2);
    assert forall t :: d2 <= t < m.dataLen ==> s[t] == m.dataBuf[t - (d2 - k)];
    assert forall t :: 0 <= t < k ==> buf[..k][t] == m.dataBuf[..k][t];
    if s[..m.dataLen] == Data(m) {
      forall t | k <= t < m.dataLen ensures s[t] == m.dataBuf[t] {
        assert s[t] == s[..m.dataLen][t] && Data(m)[t] == m.dataBuf[t];
      }
    }
  }

  /** A count in between can even let a wrong message through. Sent are the data octets A8 00; the
      buffer still holds 00 in front, and the count starts at 1 instead of 0. */
  lemma SplitIsMisread(r: Rx, m: Msg, clock: Readings)
    requires Fits(m) && m.head == PROTOCAL_QT_TYPE && m.typ == 0 && m.seqId == 0 && m.cmd == 0 && Data(m) == [0xA8, 0]
    requires Ok(r) && r.msgLen == 7 && r.msg.dataLen == 2 && Header(r.msg) == Header(m) && r.msg.dataBuf[0] == 0
    ensures var r' := Drain(r, 1, Frame(m)[7..], clock, 1).0;
            r'.recvOver && Fits(r'.msg) && Data(r'.msg) == [0, 0xA8]
  {
    MisreadChecks(m, r.msg);
    assert r.msg.dataBuf[0 := 0] == r.msg.dataBuf;
    hide Check;
    assert Frame(m)[7..] == [0xA8, 0, 0];
    var (r1, d1) := Feed(r, 1, 0xA8, clock(2), clock(3));
    assert r1.msg == r.msg.(dataBuf := r.msg.dataBuf[1 := 0xA8]) && Data(r1.msg) == [0, 0xA8];
    var (r2, d2) := Feed(r1, d1, 0, clock(4), clock(5));
    var (r3, d3) := Feed(r2, d2, 0, clock(6), clock(7));
    assert Drain(r3, d3, [], clock, 4) == (r3, d3);
    assert [0xA8, 0, 0][1..] == [0, 0] && [0, 0][1..] == [0] && [0][1..] == [];
  }

  /** Both arrangements of the two octets have check octet 00. */
  lemma MisreadChecks(m: Msg, kept: Msg)
    requires Fits(m) && m.head == PROTOCAL_QT_TYPE && m.typ == 0 && m.seqId == 0 && m.cmd == 0 && Data(m) == [0xA8, 0]
    requires Fits(kept) && Header(kept) == Header(m)
    ensures Check(m) == 0 && Check(kept.(dataBuf := kept.dataBuf[0 := 0][1 := 0xA8])) == 0
  {
    var h := Header(m);
    var turned := kept.(dataBuf := kept.dataBuf[0 := 0][1 := 0xA8]);
    assert h == [0xAA, 0, 0, 0, 0, 2, 0];
    hide Xor, XorAll;
    HeaderXor(h);
    XorZero(0xAA);
    XorZero(0xA8);
    XorZero(0);
    assert Xor(0xAA, 2) == 0xA8 by { OneXor(); }
    XorAllSnoc(h, 0xA8);
    XorAllSnoc(h + [0xA8], 0);
    XorAllSnoc(h, 0);
    XorAllSnoc(h + [0], 0xA8);
    assert h + Data(m) == h + [0xA8] + [0];
    assert Data(turned) == [0, 0xA8];
    assert h + Data(turned) == h + [0] + [0xA8];
  }

  lemma OneXor()
    ensures Xor(0xAA, 2) == 0xA8
  {
    XorBitsZero(6, 42);
    assert XorBits(7, 85, 1) == 84;
  }

  // ----- The exact condition -----

  lemma FrameTail(m: Msg, k: nat, i: nat)
    requires Fits(m) && k <= i <= m.dataLen
    ensures Frame(m)[PRO_COMMON_LEN + k..] == m.dataBuf[k..i] + Rest(m, i)
  {
    hide Check;
  }

  /** The data octets from the i-th on, and the check octet. */
  function Rest(m: Msg, i: nat): (s: seq<Octet>)
    requires Fits(m) && i <= m.dataLen
    ensures |s| == m.dataLen - i + 1
  {
    m.dataBuf[i..m.dataLen] + [Check(m)]
  }

  /** All data octets have been counted, and the rest of the data is d2 - k places too far on. */
  ghost predicate Overrun(r: Rx, d: Short, m: Msg, kept: DataBuf, k: nat, d2: Short)
    requires Fits(m) && k <= d2 <= m.dataLen
  {
    && Ok(r) && r.msgLen >= PRO_COMMON_LEN && d == m.dataLen && Header(r.msg) == Header(m) && r.msg.dataLen == m.dataLen
    && r.msg.dataBuf == Shifted(kept, m, k, d2)
  }

  /** The header has been taken, and the first k data octets; then d2 is where the count starts. */
  lemma RestOverruns(r: Rx, d2: Short, m: Msg, k: nat, clock: Readings)
    requires Fits(m) && k <= m.dataLen && Gathered(r, k, m, PRO_COMMON_LEN + k) && r.msg.head == m.head
    requires k <= d2 <= m.dataLen
    ensures var (r', d') := Drain(r, d2, m.dataBuf[k..k + m.dataLen - d2], clock, 1);
            Overrun(r', d', m, r.msg.dataBuf, k, d2)
  {
    TooFewOctets(r, d2, m.dataBuf[k..k + m.dataLen - d2], clock, 1);
    hide Drain, Feed, Check;
    assert d2 + (m.dataLen - d2) == m.dataLen;
  }

  /** The overrun does not show exactly when the octets rejoin. */
  lemma OverrunShows(r: Rx, d: Short, m: Msg, kept: DataBuf, k: nat, d2: Short)
    requires Fits(m) && k <= d2 <= m.dataLen && kept[..k] == m.dataBuf[..k] && Overrun(r, d, m, kept, k, d2)
    ensures Fits(r.msg) && (Rejoins(kept, m, k, d2)
            <==> Same(r.msg, m) && All(Rest(m, k + m.dataLen - d2), Check(r.msg)))
  {
    ShiftedFits(kept, m, k, d2);
    AllOfTail(m, d2 - k);
    assert Same(r.msg, m) ==> Check(r.msg) == Check(m);
    hide XorAll, Shifted;
  }

  /** For a count in the range of the data: complete as sent exactly if the octets are such that the
      overrun does not show. */
  lemma RestInRange(r: Rx, d2: Short, m: Msg, k: nat, clock: Readings)
    requires Fits(m) && k <= m.dataLen && Gathered(r, k, m, PRO_COMMON_LEN + k) && r.msg.head == m.head
    requires k <= d2 <= m.dataLen
    ensures var r' := Drain(r, d2, Frame(m)[PRO_COMMON_LEN + k..], clock, 1).0;
            && (AsSent(r', m) ==> Rejoins(r.msg.dataBuf, m, k, d2))
            && (Rejoins(r.msg.dataBuf, m, k, d2) ==> Complete(r', m, clock(2 * (1 + m.dataLen - k) + 1)))
  {
    hide Drain, Feed, Check, Shifted, Rejoins, Rest, Header, Data, Frame, All;
    var i := k + m.dataLen - d2;
    var (r1, d1) := Drain(r, d2, m.dataBuf[k..i], clock, 1);
    FrameTail(m, k, i);
    DrainAppend(r, d2, m.dataBuf[k..i], Rest(m, i), clock, 1);
    RestOverruns(r, d2, m, k, clock);
    OverrunShows(r1, d1, m, r.msg.dataBuf, k, d2);
    var n := 1 + (i - k);
    if AsSent(Drain(r1, d1, Rest(m, i), clock, n).0, m) {
      OnlyRepeatsComplete(r1, d1, Rest(m, i), m, clock, n);
    }
    if Rejoins(r.msg.dataBuf, m, k, d2) {
      RepeatsComplete(r1, d1, Rest(m, i), clock, n);
    }
  }

  lemma AllOfTail(m: Msg, e: nat)
    requires Fits(m) && e <= m.dataLen
    ensures All(Rest(m, m.dataLen - e), Check(m))
            <==> forall t :: m.dataLen - e <= t < m.dataLen ==> m.dataBuf[t] == Check(m)
  {
    hide Check;
    var s := Rest(m, m.dataLen - e);
    assert |s| == e + 1 && s[e] == Check(m);
    assert forall i :: 0 <= i < e ==> s[i] == m.dataBuf[m.dataLen - e + i];
    if All(s, Check(m)) {
      forall t | m.dataLen - e <= t < m.dataLen ensures m.dataBuf[t] == Check(m) {
        assert s[t - (m.dataLen - e)] == m.dataBuf[t];
      }
    }
  }

  /** A frame of which the parser has taken j octets when its call ends is received in the next call
      exactly if its header is not yet complete, or under the condition on the octets. */
  lemma RestIsReceived(r: Rx, d: Short, d2: Short, m: Msg, j: nat, clock: Readings)
    requires Fits(m) && m.head == PROTOCAL_QT_TYPE && j <= PRO_COMMON_LEN + m.dataLen && Gathered(r, d, m, j)
    ensures var r' := Drain(r, d2, Frame(m)[j..], clock, 1).0;
            var received := j < PRO_COMMON_LEN || Rejoins(r.msg.dataBuf, m, j - PRO_COMMON_LEN, d2);
            && (AsSent(r', m) <==> received)
            && (received ==> Complete(r', m, clock(2 * (1 + PRO_COMMON_LEN + m.dataLen - j) + 1)))
  {
    hide Drain, Feed, Check, XorAll;
    if j < PRO_COMMON_LEN {
      RestCompletes(r, d2, m, j, clock, 1);
    } else if d2 < j - PRO_COMMON_LEN {
      TooFewOctets(r, d2, Frame(m)[j..], clock, 1);
    } else if d2 <= m.dataLen {
      RestInRange(r, d2, m, j - PRO_COMMON_LEN, clock);
    } else {
      BeyondIsLost(r, d2, Frame(m)[j..], m, clock);
    }
  }

  /** A count beyond the data drops the message at the next octet, and what is left is too short. */
  lemma BeyondIsLost(r: Rx, d2: Short, bytes: seq<Octet>, m: Msg, clock: Readings)
    requires Ok(r) && r.msgLen >= PRO_COMMON_LEN && r.msg.dataLen < d2 && Fits(m)
             && 0 < |bytes| <= PRO_COMMON_LEN + m.dataLen + 1
    ensures !AsSent(Drain(r, d2, bytes, clock, 1).0, m)
  {
    var next := Feed(r, d2, bytes[0], clock(2), clock(3));
    TooShort(next.0, next.1, bytes[1..], m, clock, 2);
  }

  // ----- Two calls -----

  /** The interval timer has not run out when the call that took the first j octets ends. */
  predicate InTime(c: Call) {
    Since(c.clock(2 * |c.bytes|), c.clock(2 * |c.bytes| + 2)) <= ITV_MS
  }

  lemma {:induction false} DrainTimes(r: Rx, d: Short, bytes: seq<Octet>, clock: Readings, n: nat)
    requires Ok(r) && bytes != []
    ensures Drain(r, d, bytes, clock, n).0.itv == Started(ITV_MS, clock(2 * (n + |bytes| - 1)))
    decreases |bytes|
  {
    var next := Feed(r, d, bytes[0], clock(2 * n), clock(2 * n + 1));
    assert next.0.itv == Started(ITV_MS, clock(2 * n));
    if bytes[1..] != [] { DrainTimes(next.0, next.1, bytes[1..], clock, n + 1); }
  }

  /** What the first call leaves: the message so far, or nothing of it if the interval ran out. */
  lemma FirstPart(r: Rx, c: Call, m: Msg, j: nat)
    requires Ok(r) && r.msgLen == 0 && Fits(m) && m.head == PROTOCAL_QT_TYPE
    requires 0 < j <= PRO_COMMON_LEN + m.dataLen && c.bytes == Frame(m)[..j]
    ensures var r1 := Handled(r, c).0;
            var d1 := Drain(Deliver(r, c.clock).0, c.d0, c.bytes, c.clock, 1).1;
            && !r1.recvOver && (if InTime(c) then Gathered(r1, d1, m, j) else r1.msgLen == 0)
            && Agree(r.msg.dataBuf, r1.msg.dataBuf, j)
  {
    var q := Deliver(r, c.clock).0;
    assert q.msgLen == 0 && q.msg == r.msg;
    assert Frame(m)[..j] == Frame(m)[0..j];
    hide Deliver, Drain, Feed, Frame, Agree;
    DrainGathers(q, c.d0, m, 0, j, c.clock, 1);
    DrainLeaves(q, c.d0, m, 0, j, c.clock, 1);
    DrainTimes(q, c.d0, c.bytes, c.clock, 1);
  }

  /** The end of the call does not touch a message, nor its being complete. */
  lemma SecondPart(r: Rx, c: Call)
    requires Ok(r) && !r.recvOver
    ensures var r1, r' := Drain(r, c.d0, c.bytes, c.clock, 1).0, Handled(r, c).0;
            r'.recvOver == r1.recvOver && r'.msg == r1.msg && r'.sm == r1.sm
  {
    hide Drain;
  }

  /** The condition only speaks of octets the first call does not store. */
  lemma RejoinsFrom(a: DataBuf, b: DataBuf, m: Msg, k: nat, d2: Short)
    requires Fits(m) && Agree(a, b, PRO_COMMON_LEN + k)
    ensures Rejoins(a, m, k, d2) <==> Rejoins(b, m, k, d2)
  {
    hide Check;
  }

  /** When a frame that is cut after j octets arrives as it was sent, for a parser between messages
      before it: the interval must not run out at the end of the first call, and behind the header
      the octets must rejoin. */
  ghost predicate Arrives(r: Rx, c1: Call, d2: Short, m: Msg, j: nat)
    requires Fits(m)
  {
    j == 0 || (InTime(c1) && (j < PRO_COMMON_LEN || Rejoins(r.msg.dataBuf, m, j - PRO_COMMON_LEN, d2)))
  }

  lemma LateCut(r: Rx, c1: Call, c2: Call, m: Msg, j: nat)
    requires Ok(r) && r.msgLen == 0 && Fits(m) && m.head == PROTOCAL_QT_TYPE && 0 < j <= PRO_COMMON_LEN + m.dataLen
    requires c1.bytes == Frame(m)[..j] && c2.bytes == Frame(m)[j..] && !InTime(c1)
    ensures !AsSent(Handled(Handled(r, c1).0, c2).0, m)
  {
    var r1 := Handled(r, c1).0;
    FirstPart(r, c1, m, j);
    SecondPart(r1, c2);
    hide Handled, Drain, Feed, Frame, Gathered, Agree, Deliver, Same;
    TooShort(r1, c2.d0, c2.bytes, m, c2.clock, 1);
  }

  lemma TimelyCut(r: Rx, c1: Call, c2: Call, m: Msg, j: nat)
    requires Ok(r) && r.msgLen == 0 && Fits(m) && m.head == PROTOCAL_QT_TYPE && 0 < j <= PRO_COMMON_LEN + m.dataLen
    requires c1.bytes == Frame(m)[..j] && c2.bytes == Frame(m)[j..] && InTime(c1)
    ensures AsSent(Handled(Handled(r, c1).0, c2).0, m)
            <==> j < PRO_COMMON_LEN || Rejoins(r.msg.dataBuf, m, j - PRO_COMMON_LEN, c2.d0)
  {
    var r1 := Handled(r, c1).0;
    var d1 := Drain(Deliver(r, c1.clock).0, c1.d0, c1.bytes, c1.clock, 1).1;
    FirstPart(r, c1, m, j);
    SecondPart(r1, c2);
    hide Handled, Rejoins, Drain, Feed, Frame, Gathered, Agree, Deliver, Same, Complete;
    RestIsReceived(r1, d1, c2.d0, m, j, c2.clock);
    if j >= PRO_COMMON_LEN { RejoinsFrom(r.msg.dataBuf, r1.msg.dataBuf, m, j - PRO_COMMON_LEN, c2.d0); }
  }

  /** A frame cut anywhere, its parts read by two calls one after the other: what the buffer held
      before, the count the second call starts at, and the time at the end of the first call decide. */
  lemma SplitFrame(r: Rx, c1: Call, c2: Call, m: Msg, j: nat)
    requires Ok(r) && r.msgLen == 0 && Fits(m) && m.head == PROTOCAL_QT_TYPE && j <= PRO_COMMON_LEN + m.dataLen
    requires c1.bytes == Frame(m)[..j] && c2.bytes == Frame(m)[j..]
    ensures AsSent(Handled(Handled(r, c1).0, c2).0, m) <==> Arrives(r, c1, c2.d0, m, j)
  {
    if j == 0 {
      WholeFrame(r, c1, c2, m);
    } else {
      hide Handled, AsSent, Rejoins, InTime, Frame;
      if InTime(c1) { TimelyCut(r, c1, c2, m, j); } else { LateCut(r, c1, c2, m, j); }
    }
  }

  lemma WholeFrame(r: Rx, c1: Call, c2: Call, m: Msg)
    requires Ok(r) && r.msgLen == 0 && Fits(m) && m.head == PROTOCAL_QT_TYPE
    requires c1.bytes == [] && c2.bytes == Frame(m)
    ensures AsSent(Handled(Handled(r, c1).0, c2).0, m)
  {
    var r1 := Handled(r, c1).0;
    assert r1.msgLen == 0;
    var q := Deliver(r1, c2.clock).0;
    assert q.msgLen == 0;
    assert [] + Frame(m) == Frame(m);
    FrameIsReceived(q, c2.d0, [], m, c2.clock, 1);
    hide Frame, Drain;
  }

  /** Only a frame cut inside its header arrives whatever the second call starts its count at. */
  lemma SplitForEveryCount(r: Rx, c1: Call, clock: Readings, m: Msg, j: nat)
    requires Ok(r) && r.msgLen == 0 && Fits(m) && m.head == PROTOCAL_QT_TYPE && j <= PRO_COMMON_LEN + m.dataLen
    requires c1.bytes == Frame(m)[..j]
    ensures (forall d2: Short :: AsSent(Handled(Handled(r, c1).0, Call(d2, Frame(m)[j..], clock)).0, m))
            <==> j == 0 || (InTime(c1) && j < PRO_COMMON_LEN)
  {
    hide Handled, AsSent, Frame;
    forall d2: Short
      ensures AsSent(Handled(Handled(r, c1).0, Call(d2, Frame(m)[j..], clock)).0, m) <==> Arrives(r, c1, d2, m, j)
    {
      SplitFrame(r, c1, Call(d2, Frame(m)[j..], clock), m, j);
    }
    if forall d2: Short :: AsSent(Handled(Handled(r, c1).0, Call(d2, Frame(m)[j..], clock)).0, m) {
      var most: Short := 0xFFFF;
      assert AsSent(Handled(Handled(r, c1).0, Call(most, Frame(m)[j..], clock)).0, m);
      assert Arrives(r, c1, most, m, j);
    }
  }
}
