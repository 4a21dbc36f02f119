/** The AECPDU of clause 9.2.1 of IEEE Std 1722.1-2013 with its AEM command type. */
module Aecpdus {
  import opened Words
  import opened Wire
  import opened Pdus

  const COMMON_LEN: nat := 22
  const AEM_LEN: nat := 24

  datatype Aecpdu = Aecpdu(header: Header, controllerId: Eui64, seqId: Short)
  datatype Aemdu = Aemdu(common: Aecpdu, commandType: Short)

  function CommonOctets(p: Aecpdu): (s: seq<Octet>)
    ensures |s| == COMMON_LEN
  {
    HeaderOctets(p.header) + p.controllerId + Uint16(p.seqId)
  }

  function AemOctets(p: Aemdu): (s: seq<Octet>)
    ensures |s| == AEM_LEN
  {
    CommonOctets(p.common) + Uint16(p.commandType)
  }

  function CommonOf(s: seq<Octet>): Aecpdu
    requires |s| == COMMON_LEN
  {
    Aecpdu(HeaderOf(s[..12]), s[12..20], Uint16Of(s[20..22]))
  }

  function AemOf(s: seq<Octet>): Aemdu
    requires |s| == AEM_LEN
  {
    Aemdu(CommonOf(s[..22]), Uint16Of(s[22..24]))
  }

  /** Reading and writing undo each other, up to the widths of the header's fields. */
  lemma AemTrip(p: Aemdu, s: seq<Octet>)
    requires |s| == AEM_LEN
    ensures AemOf(AemOctets(p)) == p.(common := p.common.(header := Masked(p.common.header)))
    ensures AemOctets(AemOf(s)) == s
  {
    CommonTrip(p.common, s[..22]);
    Uint16Trip(p.commandType, s[22..24]);
    hide CommonOctets, CommonOf, Uint16, Uint16Of;
    var t := AemOctets(p);
    assert t[..22] == CommonOctets(p.common) && t[22..24] == Uint16(p.commandType);
    assert s[..22] + s[22..24] == s;
  }

  lemma CommonTrip(p: Aecpdu, s: seq<Octet>)
    requires |s| == COMMON_LEN
    ensures CommonOf(CommonOctets(p)) == p.(header := Masked(p.header))
    ensures CommonOctets(CommonOf(s)) == s
  {
    HeaderTrip(p.header, s[..12]);
    Uint16Trip(p.seqId, s[20..22]);
    hide HeaderOctets, HeaderOf, Uint16, Uint16Of, Masked;
    var t := CommonOctets(p);
    assert t[..12] == HeaderOctets(p.header) && t[12..20] == p.controllerId && t[20..22] == Uint16(p.seqId);
    assert s[..12] + s[12..20] + s[20..22] == s;
  }

  /** `jdksavdecc_aecpdu_common_write`. */
  method CommonWrite(p: Aecpdu, base: array<Octet>, pos: nat, len: nat) returns (r: int)
    requires len <= base.Length
    modifies base
    ensures r == ValidateRange(pos, len, COMMON_LEN)
    ensures base[..] == if r >= 0 then Put(old(base[..]), pos, CommonOctets(p)) else old(base[..])
  {
    r := ValidateRange(pos, len, COMMON_LEN);
    if r >= 0 {
      hide HeaderOctets, Put, Uint16;
      ghost var b, h := old(base[..]), HeaderOctets(p.header);
      var hr := HeaderWrite(p.header, base, pos, len);
      SetOctets(p.controllerId, base, pos + 12);
      PutPut(b, pos, h, p.controllerId);
      SetUint16(p.seqId, base, pos + 20);
      PutPut(b, pos, h + p.controllerId, Uint16(p.seqId));
    }
  }

  /** `jdksavdecc_aecpdu_aem_write`. */
  method AemWrite(p: Aemdu, base: array<Octet>, pos: nat, len: nat) returns (r: int)
    requires len <= base.Length
    modifies base
    ensures r == ValidateRange(pos, len, AEM_LEN)
    ensures base[..] == if r >= 0 then Put(old(base[..]), pos, AemOctets(p)) else old(base[..])
  {
    r := ValidateRange(pos, len, AEM_LEN);
    if r >= 0 {
      hide CommonOctets, Put, Uint16;
      var cr := CommonWrite(p.common, base, pos, len);
      SetUint16(p.commandType, base, pos + 22);
      PutPut(old(base[..]), pos, CommonOctets(p.common), Uint16(p.commandType));
    }
  }

  /** `jdksavdecc_aecpdu_common_read`. */
  method CommonRead(prev: Aecpdu, base: array<Octet>, pos: nat, len: nat) returns (r: int, p: Aecpdu)
    requires len <= base.Length
    ensures r == ValidateRange(pos, len, COMMON_LEN)
    ensures p == if r >= 0 then CommonOf(base[pos..pos + COMMON_LEN]) else prev
  {
    p := prev;
    r := ValidateRange(pos, len, COMMON_LEN);
    if r >= 0 {
      hide HeaderOf, Uint16Of;
      var hr, h := HeaderRead(prev.header, base, pos, len);
      if hr >= 0 {
        var seqId := GetUint16(base, pos + 20);
        p := Aecpdu(h, base[pos + 12..pos + 20], seqId);
        FieldSlice(base[..], pos, COMMON_LEN, 0, 12);
        FieldSlice(base[..], pos, COMMON_LEN, 12, 20);
        FieldSlice(base[..], pos, COMMON_LEN, 20, 22);
      }
    }
  }

  /** `jdksavdecc_aecpdu_aem_read`. */
  method AemRead(prev: Aemdu, base: array<Octet>, pos: nat, len: nat) returns (r: int, p: Aemdu)
    requires len <= base.Length
    ensures r == ValidateRange(pos, len, AEM_LEN)
    ensures p == if r >= 0 then AemOf(base[pos..pos + AEM_LEN]) else prev
  {
    p := prev;
    r := ValidateRange(pos, len, AEM_LEN);
    if r >= 0 {
      hide CommonOf, Uint16Of;
      var cr, c := CommonRead(prev.common, base, pos, len);
      if cr >= 0 {
        var commandType := GetUint16(base, pos + 22);
        p := Aemdu(c, commandType);
        FieldSlice(base[..], pos, AEM_LEN, 0, 22);
        FieldSlice(base[..], pos, AEM_LEN, 22, 24);
      }
    }
  }
}
