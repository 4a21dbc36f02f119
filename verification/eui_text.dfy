/** EUI-64 identifiers as text: the bounded printer and the parser. */
module EuiText {
  import opened Words
  import opened Wire

  const HEXDIG: string := "0123456789ABCDEF"
  const EUI64_SEPS: string := ":::::::"
  const STREAMID_SEPS: string := "-----:-"

  // ----- What counts as a spelling -----

  /** The value of a hexadecimal digit, in either case. */
  function Nibble(c: char): (n: Option<nat>)
    ensures n.Some? ==> n.value < 16
  {
    if '0' <= c <= '9' then Some(c as int - '0' as int)
    else if 'A' <= c <= 'F' then Some(10 + c as int - 'A' as int)
    else if 'a' <= c <= 'f' then Some(10 + c as int - 'a' as int)
    else None
  }

  predicate Delim(c: char) {
    c == ':' || c == '-'
  }

  /** The character at a position of a C string; its end reads as zero. */
  function At(s: string, i: nat): char {
    if i < |s| then s[i] else '\0'
  }

  /** The octet two digits spell. */
  function PairValue(d1: char, d2: char): Option<Octet> {
    var a, b := Nibble(d1), Nibble(d2);
    if a.Some? && b.Some? then Some(16 * a.value + b.value) else None
  }

  /** The octet the i-th pair of digits of a text spells. */
  function OctetAt(s: string, i: nat): Option<Octet> {
    PairValue(At(s, 3 * i), At(s, 3 * i + 1))
  }

  predicate DelimAt(s: string, i: nat) {
    Delim(At(s, 3 * i + 2))
  }

  /** Eight pairs of digits with a delimiter between any two; what follows does not matter. */
  ghost predicate Spells(s: string, v: Eui64) {
    && (forall i :: 0 <= i < 8 ==> OctetAt(s, i) == Some(v[i]))
    && (forall i :: 0 <= i < 7 ==> DelimAt(s, i))
  }

  // ----- The parser -----

  /** `jdksavdecc_util_parse_nibble`: the digit is shifted into what the octet held. */
  method ParseNibble(o: Octet, d1: char) returns (r: bool, o': Octet)
    ensures r == Nibble(d1).Some?
    ensures o' == if r then o % 16 * 16 + Nibble(d1).value else o
  {
    r, o' := false, o;
    var d := 0;
    if '0' <= d1 <= '9' {
      d, r := d1 as int - '0' as int, true;
    } else if 'A' <= d1 <= 'F' {
      d, r := 0xA + d1 as int - 'A' as int, true;
    } else if 'a' <= d1 <= 'f' {
      d, r := 0xA + d1 as int - 'a' as int, true;
    }
    if r {
      o' := o % 16 * 16;
      o' := o' + d;
    }
  }

  /** What is left of an octet after an attempt to parse two digits into it. */
  function ByteParsed(o: Octet, d1: char, d2: char): (res: (bool, Octet))
    ensures res.0 <==> PairValue(d1, d2).Some?
    ensures res.0 ==> PairValue(d1, d2) == Some(res.1)
  {
    var a, b := Nibble(d1), Nibble(d2);
    if a.None? then (false, o)
    else if b.None? then (false, o % 16 * 16 + a.value)
    else (true, 16 * a.value + b.value)
  }

  lemma Shifted(o: Octet, n: nat)
    requires n < 16
    ensures (o % 16 * 16 + n) % 16 * 16 == n * 16
  {}

  method ParseByte(o: Octet, d1: char, d2: char) returns (r: bool, o': Octet)
    ensures (r, o') == ByteParsed(o, d1, d2)
  {
    hide Nibble;
    r, o' := ParseNibble(o, d1);
    if r {
      Shifted(o, Nibble(d1).value);
      r, o' := ParseNibble(o', d2);
    }
  }

  /** The identifier after parsing from its i-th octet on, and whether all went well. */
  function Parsed(v: Eui64, s: string, i: nat): (bool, Eui64)
    requires i <= 8
    decreases 8 - i
  {
    if i == 8 then (true, v)
    else
      var (ok, o) := ByteParsed(v[i], At(s, 3 * i), At(s, 3 * i + 1));
      var v' := v[i := o];
      if ok && (i == 7 || DelimAt(s, i)) then Parsed(v', s, i + 1) else (false, v')
  }

  /** One octet and the delimiter behind it, if it is not the last. */
  method ParseGroup(v: Eui64, s: string, i: nat) returns (r: bool, v': Eui64)
    requires i < 8
    ensures r ==> Parsed(v, s, i) == Parsed(v', s, i + 1)
    ensures !r ==> Parsed(v, s, i) == (false, v')
  {
    var o;
    r, o := ParseByte(v[i], At(s, 3 * i), At(s, 3 * i + 1));
    v' := v[i := o];
    r := r && (i == 7 || Delim(At(s, 3 * i + 2)));
  }

  /** `jdksavdecc_eui64_init_from_cstr`: `prev` is what the identifier held before. */
  method InitFromCstr(prev: Eui64, s: string) returns (r: bool, v: Eui64)
    ensures (r, v) == Parsed(prev, s, 0)
  {
    hide Parsed;
    r, v := ParseGroup(prev, s, 0);
    if r { r, v := ParseGroup(v, s, 1); }
    if r { r, v := ParseGroup(v, s, 2); }
    if r { r, v := ParseGroup(v, s, 3); }
    if r { r, v := ParseGroup(v, s, 4); }
    if r { r, v := ParseGroup(v, s, 5); }
    if r { r, v := ParseGroup(v, s, 6); }
    if r { r, v := ParseGroup(v, s, 7); }
    ParsedEnd(v, s);
  }

  lemma ParsedEnd(v: Eui64, s: string)
    ensures Parsed(v, s, 8) == (true, v)
  {}

  lemma {:induction false} ParsedSound(v: Eui64, s: string, i: nat)
    requires i <= 8 && Parsed(v, s, i).0
    ensures var w := Parsed(v, s, i).1;
            && (forall j :: 0 <= j < i ==> w[j] == v[j])
            && (forall j :: i <= j < 8 ==> OctetAt(s, j) == Some(w[j]))
            && (forall j :: i <= j < 7 ==> DelimAt(s, j))
    decreases 8 - i
  {
    if i < 8 {
      hide ByteParsed, PairValue, DelimAt, At;
      var o := ByteParsed(v[i], At(s, 3 * i), At(s, 3 * i + 1)).1;
      assert OctetAt(s, i) == Some(o);
      ParsedSound(v[i := o], s, i + 1);
    }
  }

  lemma {:induction false} ParsedComplete(v: Eui64, s: string, i: nat)
    requires i <= 8
    requires forall j :: i <= j < 8 ==> OctetAt(s, j).Some?
    requires forall j :: i <= j < 7 ==> DelimAt(s, j)
    ensures Parsed(v, s, i).0
    decreases 8 - i
  {
    if i < 8 {
      assert OctetAt(s, i).Some?;
      hide ByteParsed, PairValue, DelimAt, At;
      ParsedComplete(v[i := ByteParsed(v[i], At(s, 3 * i), At(s, 3 * i + 1)).1], s, i + 1);
    }
  }

  /** The parser succeeds exactly on spellings, and then yields what is spelled, whatever the
      identifier held before. */
  lemma ParsesSpellings(prev: Eui64, s: string, v: Eui64)
    ensures Parsed(prev, s, 0) == (true, v) <==> Spells(s, v)
  {
    hide OctetAt, DelimAt, Parsed;
    if Spells(s, v) { ParsedComplete(prev, s, 0); }
    if Parsed(prev, s, 0).0 {
      ParsedSound(prev, s, 0);
      var w := Parsed(prev, s, 0).1;
      if Spells(s, v) {
        assert forall j :: 0 <= j < 8 ==> OctetAt(s, j) == Some(w[j]) && OctetAt(s, j) == Some(v[j]);
        assert w == v;
      }
    }
  }

  // ----- The printer -----

  function Pair(o: Octet): (s: string)
    ensures |s| == 2
  {
    [HEXDIG[o / 16], HEXDIG[o % 16]]
  }

  /** The printers as functions of the text so far and the size of the buffer: each drops what it has
      no room for. */
  function WithChar(t: string, max: nat, c: char): string {
    if max - |t| > 2 then t + [c] else t
  }

  function WithPair(t: string, max: nat, o: Octet): string {
    if max - |t| > 3 then t + Pair(o) else t
  }

  function WithGroups(t: string, max: nat, v: Eui64, seps: string, i: nat): string
    requires i <= 8 && |seps| == 7
    decreases 8 - i
  {
    if i == 8 then t
    else
      var t' := WithPair(t, max, v[i]);
      WithGroups(if i < 7 then WithChar(t', max, seps[i]) else t', max, v, seps, i + 1)
  }

  class Printer {
    const buf: array<char>
    const maxLen: nat
    var pos: nat

    ghost predicate Valid()
      reads this
    {
      maxLen <= buf.Length && (pos == 0 || pos < maxLen)
    }

    function Text(): string
      reads this, buf
      requires Valid()
    {
      buf[..pos]
    }

    constructor (b: array<char>, n: nat)
      requires n <= b.Length
      ensures Valid() && Text() == [] && buf == b && maxLen == n
    {
      buf, maxLen, pos := b, n, 0;
    }

    method Printc(c: char)
      requires Valid()
      modifies this`pos, buf
      ensures Valid() && Text() == WithChar(old(Text()), maxLen, c)
      ensures pos != old(pos) ==> buf[pos] == '\0'
      ensures forall i :: maxLen <= i < buf.Length ==> buf[i] == old(buf[i])
    {
      if maxLen - pos > 2 {
        buf[pos] := c;
        pos := pos + 1;
        buf[pos] := '\0';
      }
    }

    method PrintHexdigits(v: Octet)
      requires Valid()
      modifies this`pos, buf
      ensures Valid() && Text() == WithPair(old(Text()), maxLen, v)
      ensures pos != old(pos) ==> buf[pos] == '\0'
      ensures forall i :: maxLen <= i < buf.Length ==> buf[i] == old(buf[i])
    {
      if maxLen - pos > 3 {
        buf[pos] := HEXDIG[v / 16];
        buf[pos + 1] := HEXDIG[v % 16];
        pos := pos + 2;
        buf[pos] := '\0';
      }
    }

    method PrintGroup(v: Eui64, seps: string, i: nat)
      requires Valid() && i < 8 && |seps| == 7
      modifies this`pos, buf
      ensures Valid() && WithGroups(old(Text()), maxLen, v, seps, i) == WithGroups(Text(), maxLen, v, seps, i + 1)
      ensures forall j :: maxLen <= j < buf.Length ==> buf[j] == old(buf[j])
    {
      hide WithPair, WithChar;
      PrintHexdigits(v[i]);
      if i < 7 {
        Printc(seps[i]);
      }
    }

    /** `jdksavdecc_printer_print_eui64` and, with its own separators, `print_streamid`. Nothing is
        written beyond the size the printer was given. */
    method PrintEui64(v: Eui64, seps: string)
      requires Valid() && |seps| == 7
      modifies this`pos, buf
      ensures Valid() && Text() == WithGroups(old(Text()), maxLen, v, seps, 0)
      ensures forall j :: maxLen <= j < buf.Length ==> buf[j] == old(buf[j])
    {
      hide WithGroups, Valid;
      PrintGroup(v, seps, 0);
      PrintGroup(v, seps, 1);
      PrintGroup(v, seps, 2);
      PrintGroup(v, seps, 3);
      PrintGroup(v, seps, 4);
      PrintGroup(v, seps, 5);
      PrintGroup(v, seps, 6);
      PrintGroup(v, seps, 7);
      GroupsEnd(Text(), maxLen, v, seps);
    }
  }

  lemma GroupsEnd(t: string, max: nat, v: Eui64, seps: string)
    requires |seps| == 7
    ensures WithGroups(t, max, v, seps, 8) == t
  {}

  /** The text of an identifier from its i-th octet on. */
  function TextFrom(v: Eui64, seps: string, i: nat): (s: string)
    requires i <= 8 && |seps| == 7
    ensures |s| == if i == 8 then 0 else 23 - 3 * i
    decreases 8 - i
  {
    if i == 8 then [] else if i == 7 then Pair(v[7]) else Pair(v[i]) + [seps[i]] + TextFrom(v, seps, i + 1)
  }

  lemma {:induction false} RoomSuffices(t: string, max: nat, v: Eui64, seps: string, i: nat)
    requires i < 8 && |seps| == 7 && max - |t| >= 25 - 3 * i
    ensures WithGroups(t, max, v, seps, i) == t + TextFrom(v, seps, i)
    decreases 8 - i
  {
    hide Pair;
    if i < 7 {
      RoomSuffices(t + Pair(v[i]) + [seps[i]], max, v, seps, i + 1);
      assert t + Pair(v[i]) + [seps[i]] + TextFrom(v, seps, i + 1)
        == t + (Pair(v[i]) + [seps[i]] + TextFrom(v, seps, i + 1));
    } else {
      GroupsEnd(t + Pair(v[7]), max, v, seps);
    }
  }

  lemma {:induction false} TooLittleRoom(t: string, max: nat, v: Eui64, seps: string, i: nat, n: int)
    requires i < 8 && |seps| == 7 && max < n + 25 - 3 * i && |t| <= n
    ensures |WithGroups(t, max, v, seps, i)| < n + 23 - 3 * i
    decreases 8 - i
  {
    var t1 := WithPair(t, max, v[i]);
    if i < 7 {
      TooLittleRoom(WithChar(t1, max, seps[i]), max, v, seps, i + 1, n + 3);
    } else {
      GroupsEnd(t1, max, v, seps);
    }
  }

  /** An identifier is printed in full exactly when 25 places are left: its 23 characters, the final
      zero, and one place more than it needs. */
  lemma PrintedInFull(t: string, max: nat, v: Eui64, seps: string)
    requires |seps| == 7
    ensures WithGroups(t, max, v, seps, 0) == t + TextFrom(v, seps, 0) <==> max - |t| >= 25
  {
    if max - |t| >= 25 {
      RoomSuffices(t, max, v, seps, 0);
    } else {
      TooLittleRoom(t, max, v, seps, 0, |t|);
    }
  }

  lemma DigitTrip(n: nat)
    requires n < 16
    ensures Nibble(HEXDIG[n]) == Some(n)
  {}

  lemma PairTrip(o: Octet)
    ensures PairValue(Pair(o)[0], Pair(o)[1]) == Some(o)
  {
    DigitTrip(o / 16);
    DigitTrip(o % 16);
    hide Nibble;
  }

  lemma TextStep(v: Eui64, seps: string, i: nat)
    requires |seps| == 7 && i < 8
    ensures var s := TextFrom(v, seps, i);
            && s[0..2] == Pair(v[i]) && (i < 7 ==> s[2] == seps[i] && s[3..] == TextFrom(v, seps, i + 1))
  {
    hide Pair;
  }

  lemma {:induction false} TextAt(v: Eui64, seps: string, i: nat, j: nat)
    requires |seps| == 7 && i <= j < 8
    ensures var s := TextFrom(v, seps, i);
            && s[3 * (j - i)..3 * (j - i) + 2] == Pair(v[j]) && (j < 7 ==> s[3 * (j - i) + 2] == seps[j])
    decreases j - i
  {
    TextStep(v, seps, i);
    hide Pair, TextFrom;
    if i < j {
      TextAt(v, seps, i + 1, j);
      SliceOfRest(TextFrom(v, seps, i), 3 * (j - i - 1));
    }
  }

  lemma SliceOfRest(s: string, k: nat)
    requires k + 5 <= |s|
    ensures s[3..][k..k + 2] == s[k + 3..k + 5] && (k + 5 < |s| ==> s[3..][k + 2] == s[k + 5])
  {}

  lemma PrintedOctet(v: Eui64, seps: string, j: nat)
    requires |seps| == 7 && j < 8
    ensures OctetAt(TextFrom(v, seps, 0), j) == Some(v[j])
    ensures j < 7 ==> At(TextFrom(v, seps, 0), 3 * j + 2) == seps[j]
  {
    hide Pair, PairValue, TextFrom;
    var s := TextFrom(v, seps, 0);
    TextAt(v, seps, 0, j);
    assert s[3 * j..3 * j + 2][0] == s[3 * j] && s[3 * j..3 * j + 2][1] == s[3 * j + 1];
    PairTrip(v[j]);
  }

  /** What is printed, as an EUI-64 or as a stream id, is a spelling of the identifier. */
  lemma PrintedSpells(v: Eui64, seps: string)
    requires |seps| == 7 && forall i :: 0 <= i < 7 ==> Delim(seps[i])
    ensures Spells(TextFrom(v, seps, 0), v)
  {
    hide OctetAt, TextFrom, Delim, At;
    forall j | 0 <= j < 8 ensures OctetAt(TextFrom(v, seps, 0), j) == Some(v[j]) {
      PrintedOctet(v, seps, j);
    }
    forall j | 0 <= j < 7 ensures DelimAt(TextFrom(v, seps, 0), j) {
      PrintedOctet(v, seps, j);
    }
  }

  lemma SepsAreDelims()
    ensures forall i :: 0 <= i < 7 ==> Delim(EUI64_SEPS[i]) && Delim(STREAMID_SEPS[i])
  {}

  /** Printing and parsing round trip: what either printer prints in an empty buffer with room enough
      is parsed back to the same identifier. */
  lemma PrintThenParse(v: Eui64, seps: string, max: nat, prev: Eui64)
    requires seps == EUI64_SEPS || seps == STREAMID_SEPS
    requires max >= 25
    ensures Parsed(prev, WithGroups([], max, v, seps, 0), 0) == (true, v)
  {
    SepsAreDelims();
    hide WithGroups, TextFrom, Parsed, Delim;
    RoomSuffices([], max, v, seps, 0);
    assert [] + TextFrom(v, seps, 0) == TextFrom(v, seps, 0);
    PrintedSpells(v, seps);
    ParsesSpellings(prev, TextFrom(v, seps, 0), v);
  }

  // ----- Digits and separators -----

  /** The sixteen digits have the values 0 to 15 in either case. */
  lemma DigitsAre(n: nat)
    requires n < 16
    ensures Nibble("0123456789ABCDEF"[n]) == Some(n) && Nibble("0123456789abcdef"[n]) == Some(n)
  {}

  /** And nothing else is a digit. */
  lemma OnlyDigits(c: char)
    requires Nibble(c).Some?
    ensures c == "0123456789ABCDEF"[Nibble(c).value] || c == "0123456789abcdef"[Nibble(c).value]
  {}

  /** An identifier is printed as eight pairs of upper-case digits, the high digit first, with colons in
      between; a stream id has a colon only before its last pair but one. */
  lemma PrintedIs(v: Eui64, seps: string, j: nat)
    requires (seps == EUI64_SEPS || seps == STREAMID_SEPS) && j < 8
    ensures var s := TextFrom(v, seps, 0);
            && |s| == 23
            && s[3 * j] == "0123456789ABCDEF"[v[j] / 16] && s[3 * j + 1] == "0123456789ABCDEF"[v[j] % 16]
            && (j < 7 ==> s[3 * j + 2] == if seps == EUI64_SEPS || j == 5 then ':' else '-')
  {
    var s := TextFrom(v, seps, 0);
    TextAt(v, seps, 0, j);
    if j < 7 { SeparatorIs(seps, j); }
    hide TextFrom;
    PairIs(s[3 * j..3 * j + 2], v[j]);
    hide Pair;
    assert s[3 * j..3 * j + 2][0] == s[3 * j] && s[3 * j..3 * j + 2][1] == s[3 * j + 1];
  }

  lemma SeparatorIs(seps: string, j: nat)
    requires (seps == EUI64_SEPS || seps == STREAMID_SEPS) && j < 7
    ensures seps[j] == if seps == EUI64_SEPS || j == 5 then ':' else '-'
  {}

  lemma PairIs(t: string, o: Octet)
    requires t == Pair(o)
    ensures |t| == 2 && t[0] == "0123456789ABCDEF"[o / 16] && t[1] == "0123456789ABCDEF"[o % 16]
  {}

  /** A character is printed when it leaves room for a final zero and one place more; so are two digits. */
  lemma PrintsFit(t: string, max: nat, c: char, o: Octet)
    ensures WithChar(t, max, c) == if |t| + 3 <= max then t + [c] else t
    ensures WithPair(t, max, o) == if |t| + 4 <= max then t + Pair(o) else t
  {}

  /** A fault in the first of two digits leaves an octet as it was; one in the second has shifted the first
      digit in. */
  lemma FaultLeaves(o: Octet, d1: char, d2: char)
    requires Nibble(d1).None? || Nibble(d2).None?
    ensures ByteParsed(o, d1, d2)
            == (false, if Nibble(d1).None? then o else o % 16 * 16 + Nibble(d1).value)
  {
    hide Nibble;
  }

  /** When parsing fails, there is a first group at fault: those before it are spelled, and the octets behind
      it are as they were. */
  lemma {:induction false} FaultStops(v: Eui64, s: string, i: nat) returns (j: nat)
    requires i < 8 && !Parsed(v, s, i).0
    ensures i <= j < 8 && (OctetAt(s, j).None? || (j < 7 && !DelimAt(s, j)))
    ensures forall n :: i <= n < j ==> OctetAt(s, n) == Some(Parsed(v, s, i).1[n]) && DelimAt(s, n)
    ensures forall n :: 0 <= n < i || j < n < 8 ==> Parsed(v, s, i).1[n] == v[n]
    decreases 8 - i
  {
    hide ByteParsed, PairValue, DelimAt, At;
    var o := ByteParsed(v[i], At(s, 3 * i), At(s, 3 * i + 1));
    if o.0 && (i == 7 || DelimAt(s, i)) {
      j := FaultStops(v[i := o.1], s, i + 1);
    } else {
      j := i;
    }
  }
}
