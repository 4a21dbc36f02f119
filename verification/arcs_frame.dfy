/**
 Frames of the ARCS protocol: a header of seven octets, up to 256 data octets, and a check octet,
 the exclusive-or of everything before it.
 */
module ArcsFrame {
  import opened Words

  const PROTOCAL_QT_TYPE: Octet := 0xAA
  const PRO_COMMON_LEN: nat := 7
  const PRO_QT_MAX: nat := 256

  /** The data octets are a fixed buffer, of which the first `dataLen` count. */
  type DataBuf = b: seq<Octet> | |b| == PRO_QT_MAX witness seq(PRO_QT_MAX, _ => 0)

  datatype Msg = Msg(head: Octet, typ: Octet, seqId: Short, cmd: Octet, dataLen: Short, dataBuf: DataBuf)

  predicate Fits(m: Msg) {
    m.dataLen <= PRO_QT_MAX
  }

  function Data(m: Msg): (d: seq<Octet>)
    requires Fits(m)
    ensures |d| == m.dataLen
  {
    m.dataBuf[..m.dataLen]
  }

  /** Two messages that only differ in octets of the buffer that do not count. */
  ghost predicate Same(a: Msg, b: Msg)
    requires Fits(a) && Fits(b)
  {
    Header(a) == Header(b) && Data(a) == Data(b)
  }

  /** Low octets first. */
  function Header(m: Msg): (h: seq<Octet>)
    ensures |h| == PRO_COMMON_LEN
  {
    [m.head, m.typ, m.seqId % 0x100, m.seqId / 0x100, m.cmd, m.dataLen % 0x100, m.dataLen / 0x100]
  }

  function Pow2(n: nat): (p: nat)
    ensures p >= 1
  {
    if n == 0 then 1 else 2 * Pow2(n - 1)
  }

  /** Exclusive-or of the n low bits, from the lowest up. */
  function XorBits(n: nat, a: nat, b: nat): (c: nat)
    ensures c < Pow2(n)
  {
    if n == 0 then 0 else (a + b) % 2 + 2 * XorBits(n - 1, a / 2, b / 2)
  }

  function Xor(a: Octet, b: Octet): Octet {
    assert Pow2(8) == 0x100;
    XorBits(8, a, b)
  }

  function XorAll(s: seq<Octet>): Octet {
    if s == [] then 0 else Xor(XorAll(s[..|s| - 1]), s[|s| - 1])
  }

  function Check(m: Msg): Octet
    requires Fits(m)
  {
    XorAll(Header(m) + Data(m))
  }

  function Frame(m: Msg): (f: seq<Octet>)
    requires Fits(m)
    ensures |f| == PRO_COMMON_LEN + m.dataLen + 1
  {
    Header(m) + Data(m) + [Check(m)]
  }

  /** `ProtocalQt_checkCrc`. */
  method CheckCrc(m: Msg, rCrc: Octet) returns (r: int)
    requires Fits(m)
    ensures r == if rCrc == Check(m) then 0 else -1
  {
    hide Xor;
    r := -1;
    var crc := Xor(0, m.head);
    crc := Xor(crc, m.typ);
    crc := Xor(crc, m.seqId % 0x100);
    crc := Xor(crc, m.seqId / 0x100);
    crc := Xor(crc, m.cmd);
    crc := Xor(crc, m.dataLen % 0x100);
    crc := Xor(crc, m.dataLen / 0x100);
    HeaderXor(Header(m));
    assert Header(m) + m.dataBuf[..0] == Header(m);
    for i := 0 to m.dataLen
      invariant crc == XorAll(Header(m) + m.dataBuf[..i])
    {
      XorAllSnoc(Header(m) + m.dataBuf[..i], m.dataBuf[i]);
      assert Header(m) + m.dataBuf[..i] + [m.dataBuf[i]] == Header(m) + m.dataBuf[..i + 1];
      crc := Xor(crc, m.dataBuf[i]);
    }
    if rCrc == crc {
      r := 0;
    }
  }

  lemma XorAllSnoc(s: seq<Octet>, x: Octet)
    ensures XorAll(s + [x]) == Xor(XorAll(s), x)
  {
    assert (s + [x])[..|s|] == s;
  }

  lemma HeaderXor(h: seq<Octet>)
    requires |h| == 7
    ensures XorAll(h) == Xor(Xor(Xor(Xor(Xor(Xor(Xor(0, h[0]), h[1]), h[2]), h[3]), h[4]), h[5]), h[6])
  {
    hide Xor;
    XorAllSnoc([], h[0]);
    XorAllSnoc(h[..1], h[1]);
    XorAllSnoc(h[..2], h[2]);
    XorAllSnoc(h[..3], h[3]);
    XorAllSnoc(h[..4], h[4]);
    XorAllSnoc(h[..5], h[5]);
    XorAllSnoc(h[..6], h[6]);
    assert [] + [h[0]] == h[..1] && h[..1] + [h[1]] == h[..2] && h[..2] + [h[2]] == h[..3] && h[..3] + [h[3]] == h[..4];
    assert h[..4] + [h[4]] == h[..5] && h[..5] + [h[5]] == h[..6] && h[..6] + [h[6]] == h;
  }

  function Zeros(n: nat): (z: seq<Octet>)
    ensures |z| == n
  {
    seq(n, _ => 0)
  }

  /** The send buffer before its check octet. */
  function Body(m: Msg, n: nat): (b: seq<Octet>)
    requires Fits(m) && PRO_COMMON_LEN + m.dataLen <= n
    ensures |b| == n
  {
    Header(m) + Data(m) + Zeros(n - PRO_COMMON_LEN - m.dataLen)
  }

  /**
   `ProtocalQt_Fill`. The length argument is what places the check octet; when it is that of the
   message, the buffer begins with the frame.
   */
  method ProtocalQtFill(m: Msg, inLen: nat, pBuf: array<Octet>) returns (r: int)
    requires m.dataLen <= PRO_QT_MAX && PRO_COMMON_LEN <= inLen < pBuf.Length
             ==> PRO_COMMON_LEN + m.dataLen <= pBuf.Length
    modifies pBuf
    ensures r == if PRO_COMMON_LEN <= inLen < pBuf.Length && m.dataLen <= PRO_QT_MAX then inLen + 1 else -1
    ensures r == -1 ==> pBuf[..] == old(pBuf[..])
    ensures r != -1 ==> pBuf[..] == Body(m, pBuf.Length)[inLen := XorAll(Body(m, pBuf.Length)[..inLen])]
    ensures r != -1 && inLen == PRO_COMMON_LEN + m.dataLen ==> pBuf[..r] == Frame(m)
  {
    if inLen + 1 > pBuf.Length || inLen < PRO_COMMON_LEN || m.dataLen > PRO_QT_MAX {
      return -1;
    }
    ghost var body := Body(m, pBuf.Length);
    FillBody(m, pBuf);
    var countCrc := 0;
    for i := 0 to inLen
      invariant pBuf[..] == body
      invariant countCrc == XorAll(body[..i])
    {
      XorAllSnoc(body[..i], body[i]);
      assert body[..i] + [body[i]] == body[..i + 1];
      countCrc := Xor(countCrc, pBuf[i]);
    }
    pBuf[inLen] := countCrc;
    if inLen == PRO_COMMON_LEN + m.dataLen {
      assert body[..inLen] == Header(m) + Data(m);
    }
    return inLen + 1;
  }

  /** Everything but the check octet. */
  method FillBody(m: Msg, pBuf: array<Octet>)
    requires Fits(m) && PRO_COMMON_LEN + m.dataLen <= pBuf.Length
    modifies pBuf
    ensures pBuf[..] == Body(m, pBuf.Length)
  {
    for i := 0 to pBuf.Length
      invariant forall j :: 0 <= j < i ==> pBuf[j] == 0
    {
      pBuf[i] := 0;
    }
    pBuf[0] := m.head;
    pBuf[1] := m.typ;
    pBuf[2] := m.seqId % 0x100;
    pBuf[3] := m.seqId / 0x100;
    pBuf[4] := m.cmd;
    pBuf[5] := m.dataLen % 0x100;
    pBuf[6] := m.dataLen / 0x100;
    for i := 0 to m.dataLen
      invariant forall j :: 0 <= j < 7 ==> pBuf[j] == Header(m)[j]
      invariant forall j :: 7 <= j < 7 + i ==> pBuf[j] == m.dataBuf[j - 7]
      invariant forall j :: 7 + i <= j < pBuf.Length ==> pBuf[j] == 0
    {
      pBuf[i + 7] := m.dataBuf[i];
    }
    assert pBuf[..] == Body(m, pBuf.Length);
  }

  // ----- What the check octet detects -----

  lemma {:induction false} XorBitsInjective(n: nat, a: nat, b: nat, x: nat)
    requires a < Pow2(n) && b < Pow2(n)
    ensures XorBits(n, a, x) == XorBits(n, b, x) ==> a == b
    ensures XorBits(n, x, a) == XorBits(n, x, b) ==> a == b
  {
    if n > 0 { XorBitsInjective(n - 1, a / 2, b / 2, x / 2); }
  }

  lemma XorInjective(a: Octet, b: Octet, x: Octet)
    ensures Xor(a, x) == Xor(b, x) ==> a == b
    ensures Xor(x, a) == Xor(x, b) ==> a == b
  {
    assert Pow2(8) == 0x100;
    XorBitsInjective(8, a, b, x);
  }

  lemma {:induction false} XorBitsZero(n: nat, a: nat)
    requires a < Pow2(n)
    ensures XorBits(n, a, 0) == a && XorBits(n, 0, a) == a && XorBits(n, a, a) == 0
  {
    if n > 0 { XorBitsZero(n - 1, a / 2); }
  }

  lemma XorZero(a: Octet)
    ensures Xor(a, 0) == a && Xor(0, a) == a && Xor(a, a) == 0
  {
    assert Pow2(8) == 0x100;
    XorBitsZero(8, a);
  }

  /** One changed octet always changes the check octet. */
  lemma {:induction false} OneErrorShows(s: seq<Octet>, i: nat, x: Octet)
    requires i < |s| && x != s[i]
    ensures XorAll(s[i := x]) != XorAll(s)
    decreases |s|
  {
    hide Xor;
    var n := |s| - 1;
    if i == n {
      assert s[i := x][..n] == s[..n];
      XorInjective(x, s[n], XorAll(s[..n]));
    } else {
      assert s[i := x][..n] == s[..n][i := x];
      OneErrorShows(s[..n], i, x);
      XorInjective(XorAll(s[..n][i := x]), XorAll(s[..n]), s[n]);
    }
  }

  // ----- What the check octet and the frame are -----

  /** The i-th bit of a number, from the lowest. */
  function Bit(x: nat, i: nat): nat {
    if i == 0 then x % 2 else Bit(x / 2, i - 1)
  }

  lemma {:induction false} XorBit(n: nat, a: nat, b: nat, i: nat)
    ensures Bit(XorBits(n, a, b), i) == if i < n && Bit(a, i) != Bit(b, i) then 1 else 0
    decreases n, i
  {
    if n == 0 {
      ZeroBit(i);
    } else if i > 0 {
      XorBit(n - 1, a / 2, b / 2, i - 1);
    }
  }

  lemma {:induction false} ZeroBit(i: nat)
    ensures Bit(0, i) == 0
  {
    if i > 0 { ZeroBit(i - 1); }
  }

  /** A bit of the exclusive-or is set exactly when the two bits differ. */
  lemma XorIsBitwise(a: Octet, b: Octet, i: nat)
    requires i < 8
    ensures Bit(Xor(a, b), i) == if Bit(a, i) != Bit(b, i) then 1 else 0
  {
    XorBit(8, a, b, i);
  }

  /** A set bit of the check octet says that an odd number of the octets before it have that bit. */
  function SetBits(s: seq<Octet>, i: nat): nat {
    if s == [] then 0 else SetBits(s[..|s| - 1], i) + Bit(s[|s| - 1], i)
  }

  lemma {:induction false} XorAllIsParity(s: seq<Octet>, i: nat)
    requires i < 8
    ensures Bit(XorAll(s), i) == SetBits(s, i) % 2
    decreases |s|
  {
    hide Xor;
    if s == [] {
      ZeroBit(i);
    } else {
      XorAllIsParity(s[..|s| - 1], i);
      XorIsBitwise(XorAll(s[..|s| - 1]), s[|s| - 1], i);
      BitIsBit(s[|s| - 1], i);
    }
  }

  lemma {:induction false} BitIsBit(x: nat, i: nat)
    ensures Bit(x, i) == 0 || Bit(x, i) == 1
  {
    if i > 0 { BitIsBit(x / 2, i - 1); }
  }

  /** Which octet of a frame holds what: head, type, number and length with the low octet first, the data
      from the eighth octet on, and last the octet that makes every bit of the whole frame even. */
  lemma FrameLayout(m: Msg)
    requires Fits(m)
    ensures var f := Frame(m);
            && |f| == 8 + m.dataLen
            && f[0] == m.head && f[1] == m.typ && f[2] as int + 256 * f[3] as int == m.seqId && f[4] == m.cmd
            && f[5] as int + 256 * f[6] as int == m.dataLen
            && (forall i :: 0 <= i < m.dataLen ==> f[7 + i] == m.dataBuf[i])
            && forall i :: 0 <= i < 8 ==> SetBits(f, i) % 2 == 0
  {
    var f, c := Frame(m), Check(m);
    assert f[..|f| - 1] == Header(m) + Data(m) && f[|f| - 1] == c;
    forall i | 0 <= i < 8 ensures SetBits(f, i) % 2 == 0 {
      XorAllIsParity(Header(m) + Data(m), i);
      BitIsBit(c, i);
    }
    hide Check;
  }
}
