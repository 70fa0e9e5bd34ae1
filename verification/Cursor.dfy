/** The pagination cursor: isoformat, a separator and a decimal id, in unpadded base64url. */
module Cursor {
  import opened Prelude
  import opened Digits

  // ---------------------------------------------------------------- timestamps

  /** The fields of an aware UTC datetime. */
  datatype Timestamp = Timestamp(year: nat, month: nat, day: nat, hour: nat, minute: nat, second: nat, micro: nat)

  predicate IsLeap(year: nat) {
    year % 4 == 0 && (year % 100 != 0 || year % 400 == 0)
  }

  function DaysInMonth(year: nat, month: nat): nat {
    if month == 2 then (if IsLeap(year) then 29 else 28)
    else if month == 4 || month == 6 || month == 9 || month == 11 then 30
    else 31
  }

  /** What the datetime constructor admits. */
  predicate ValidTimestamp(t: Timestamp) {
    && 1 <= t.year <= 9999
    && 1 <= t.month <= 12
    && 1 <= t.day <= DaysInMonth(t.year, t.month)
    && t.hour < 24 && t.minute < 60 && t.second < 60 && t.micro < 1000000
  }

  /** created_at.isoformat() for a UTC datetime: the fraction is there only when it is not zero. */
  function FormatIso(t: Timestamp): string
    requires ValidTimestamp(t)
  {
    WidthFacts();
    FormatDate(t) + "T" + FormatTime(t) + (if t.micro == 0 then "" else "." + Padded(t.micro, 6)) + "+00:00"
  }

  function FormatDate(t: Timestamp): (s: string)
    requires ValidTimestamp(t)
    ensures |s| == 10
  {
    WidthFacts();
    Padded(t.year, 4) + "-" + Padded(t.month, 2) + "-" + Padded(t.day, 2)
  }

  function FormatTime(t: Timestamp): (s: string)
    requires ValidTimestamp(t)
    ensures |s| == 8
  {
    WidthFacts();
    Padded(t.hour, 2) + ":" + Padded(t.minute, 2) + ":" + Padded(t.second, 2)
  }

  lemma WidthFacts()
    ensures Pow10(2) == 100 && Pow10(4) == 10000 && Pow10(6) == 1000000
  {
    assert Pow10(3) == 1000;
    assert Pow10(5) == 100000;
  }

  predicate IsDate(s: string)
    requires |s| == 10
  {
    AllDigits(s[0..4]) && s[4] == '-' && AllDigits(s[5..7]) && s[7] == '-' && AllDigits(s[8..10])
  }

  predicate IsTime(s: string)
    requires |s| == 8
  {
    AllDigits(s[0..2]) && s[2] == ':' && AllDigits(s[3..5]) && s[5] == ':' && AllDigits(s[6..8])
  }

  /** datetime.fromisoformat on the two shapes that isoformat() prints for UTC. */
  function ParseIso(s: string): (r: Option<Timestamp>)
    ensures r.Some? ==> ValidTimestamp(r.value)
  {
    if (|s| != 25 && |s| != 32) || s[10] != 'T' || !IsDate(s[0..10]) || !IsTime(s[11..19]) then None
    else if s[|s| - 6..] != "+00:00" then None
    else if |s| == 32 && (s[19] != '.' || !AllDigits(s[20..26])) then None
    else
      var d, c := s[0..10], s[11..19];
      var micro := if |s| == 25 then 0 else NatOf(s[20..26]);
      var t := Timestamp(NatOf(d[0..4]), NatOf(d[5..7]), NatOf(d[8..10]),
                         NatOf(c[0..2]), NatOf(c[3..5]), NatOf(c[6..8]), micro);
      if ValidTimestamp(t) then Some(t) else None
  }

  lemma DateFields(t: Timestamp)
    requires ValidTimestamp(t)
    ensures var d := FormatDate(t);
      IsDate(d) && NatOf(d[0..4]) == t.year && NatOf(d[5..7]) == t.month && NatOf(d[8..10]) == t.day
  {
    WidthFacts();
    var d := FormatDate(t);
    assert d[0..4] == Padded(t.year, 4);
    assert d[5..7] == Padded(t.month, 2);
    assert d[8..10] == Padded(t.day, 2);
  }

  lemma TimeFields(t: Timestamp)
    requires ValidTimestamp(t)
    ensures var c := FormatTime(t);
      IsTime(c) && NatOf(c[0..2]) == t.hour && NatOf(c[3..5]) == t.minute && NatOf(c[6..8]) == t.second
  {
    WidthFacts();
    var c := FormatTime(t);
    assert c[0..2] == Padded(t.hour, 2);
    assert c[3..5] == Padded(t.minute, 2);
    assert c[6..8] == Padded(t.second, 2);
  }

  lemma Slices(date: string, time: string, fraction: string)
    requires |date| == 10 && |time| == 8
    ensures var s := date + "T" + time + fraction + "+00:00";
      && s[0..10] == date && s[10] == 'T' && s[11..19] == time
      && s[19..|s| - 6] == fraction && s[|s| - 6..] == "+00:00"
  {
    var s := date + "T" + time + fraction + "+00:00";
    assert s[0..10] == date;
    assert s[11..19] == time;
    assert s[19..|s| - 6] == fraction;
    assert s[|s| - 6..] == "+00:00";
  }

  lemma IsoSlices(t: Timestamp)
    requires ValidTimestamp(t)
    ensures var s := FormatIso(t);
      && |s| == (if t.micro == 0 then 25 else 32)
      && s[0..10] == FormatDate(t) && s[10] == 'T' && s[11..19] == FormatTime(t) && s[|s| - 6..] == "+00:00"
      && (t.micro != 0 ==> s[19] == '.' && s[20..26] == Padded(t.micro, 6))
  {
    hide FormatDate, FormatTime, Padded;
    WidthFacts();
    var fraction := if t.micro == 0 then "" else "." + Padded(t.micro, 6);
    var s := FormatIso(t);
    Slices(FormatDate(t), FormatTime(t), fraction);
    if t.micro != 0 {
      assert s[19] == s[19..|s| - 6][0] && s[20..26] == s[19..|s| - 6][1..];
    }
  }

  lemma {:induction false} ParseFormatIso(t: Timestamp)
    requires ValidTimestamp(t)
    ensures ParseIso(FormatIso(t)) == Some(t)
  {
    hide FormatIso, FormatDate, FormatTime, IsDate, IsTime;
    WidthFacts();
    DateFields(t);
    TimeFields(t);
    IsoSlices(t);
  }

  // ---------------------------------------------------------------- base64url

  type Byte = n: nat | n < 256

  /** RFC 4648 section 5, table 2. */
  function B64Char(n: nat): (c: char)
    requires n < 64
    ensures c != '='
  {
    if n < 26 then (65 + n) as char
    else if n < 52 then (71 + n) as char
    else if n < 62 then (n - 4) as char
    else if n == 62 then '-' else '_'
  }

  /** The decoder's table: '-' and '_' are translated to '+' and '/' first, so both spellings count. */
  function B64Value(c: char): (v: Option<nat>)
    ensures v.Some? ==> v.value < 64
  {
    if 'A' <= c <= 'Z' then Some(c as int - 65)
    else if 'a' <= c <= 'z' then Some(c as int - 71)
    else if '0' <= c <= '9' then Some(c as int + 4)
    else if c == '-' || c == '+' then Some(62)
    else if c == '_' || c == '/' then Some(63)
    else None
  }

  lemma B64Inverse(n: nat)
    requires n < 64
    ensures B64Value(B64Char(n)) == Some(n)
  {
  }

  predicate IsUrlSafe(c: char) {
    IsDigit(c) || 'A' <= c <= 'Z' || 'a' <= c <= 'z' || c == '-' || c == '_'
  }

  predicate UrlSafe(s: string) {
    forall i :: 0 <= i < |s| ==> IsUrlSafe(s[i])
  }

  lemma B64CharIsUrlSafe(n: nat)
    requires n < 64
    ensures IsUrlSafe(B64Char(n))
  {
  }

  function Group(b0: Byte, b1: Byte, b2: Byte): (s: string)
    ensures |s| == 4
  {
    [B64Char(b0 / 4), B64Char(b0 % 4 * 16 + b1 / 16), B64Char(b1 % 16 * 4 + b2 / 64), B64Char(b2 % 64)]
  }

  /** RFC 4648 section 4 over the alphabet of section 5, with padding. */
  function B64Encode(bs: seq<Byte>): string {
    if |bs| == 0 then ""
    else if |bs| == 1 then [B64Char(bs[0] / 4), B64Char(bs[0] % 4 * 16), '=', '=']
    else if |bs| == 2 then
      [B64Char(bs[0] / 4), B64Char(bs[0] % 4 * 16 + bs[1] / 16), B64Char(bs[1] % 16 * 4), '=']
    else
      Group(bs[0], bs[1], bs[2]) + B64Encode(bs[3..])
  }

  /** binascii.a2b_base64 outside strict mode: one pass that skips foreign characters, where `quad` counts
      the characters of the current group, `left` keeps the bits not yet written and `pads` the run of '='. */
  function B64Decode(s: string, quad: nat, left: nat, pads: nat): Option<seq<Byte>>
    requires quad < 4 && left < 64
    requires (quad == 2 ==> left < 16) && (quad == 3 ==> left < 4)
  {
    if s == "" then (if quad == 0 then Some([]) else None)
    else if s[0] == '=' then
      if quad >= 2 && quad + pads + 1 >= 4 then Some([]) else B64Decode(s[1..], quad, left, pads + 1)
    else
      match B64Value(s[0])
      case None => B64Decode(s[1..], quad, left, pads)
      case Some(v) =>
        if quad == 0 then B64Decode(s[1..], 1, v, 0)
        else if quad == 1 then Emit(left * 4 + v / 16, B64Decode(s[1..], 2, v % 16, 0))
        else if quad == 2 then Emit(left * 16 + v / 4, B64Decode(s[1..], 3, v % 4, 0))
        else Emit(left * 64 + v, B64Decode(s[1..], 0, 0, 0))
  }

  function Emit(b: Byte, rest: Option<seq<Byte>>): (r: Option<seq<Byte>>)
    ensures rest.Some? && rest.value == [] ==> r == Some([b])
  {
    assert rest.Some? && rest.value == [] ==> [b] + rest.value == [b];
    if rest.Some? then Some([b] + rest.value) else None
  }

  /** One character of the alphabet moves the decoder on by six bits. */
  lemma DecodeStep(n: nat, rest: string, quad: nat, left: nat)
    requires n < 64 && quad < 4 && left < 64
    requires (quad == 2 ==> left < 16) && (quad == 3 ==> left < 4)
    ensures B64Decode([B64Char(n)] + rest, quad, left, 0) ==
      if quad == 0 then B64Decode(rest, 1, n, 0)
      else if quad == 1 then Emit(left * 4 + n / 16, B64Decode(rest, 2, n % 16, 0))
      else if quad == 2 then Emit(left * 16 + n / 4, B64Decode(rest, 3, n % 4, 0))
      else Emit(left * 64 + n, B64Decode(rest, 0, 0, 0))
  {
    B64Inverse(n);
    assert ([B64Char(n)] + rest)[1..] == rest;
  }

  /** Four characters of the alphabet are three bytes. */
  lemma DecodeGroup(n0: nat, n1: nat, n2: nat, n3: nat, rest: string)
    requires n0 < 64 && n1 < 64 && n2 < 64 && n3 < 64
    ensures B64Decode([B64Char(n0), B64Char(n1), B64Char(n2), B64Char(n3)] + rest, 0, 0, 0) ==
      Emit(n0 * 4 + n1 / 16, Emit(n1 % 16 * 16 + n2 / 4, Emit(n2 % 4 * 64 + n3, B64Decode(rest, 0, 0, 0))))
  {
    hide B64Decode, B64Char;
    var c0, c1, c2, c3 := B64Char(n0), B64Char(n1), B64Char(n2), B64Char(n3);
    assert [c0, c1, c2, c3] + rest == [c0] + ([c1] + ([c2] + ([c3] + rest)));
    DecodeStep(n0, [c1] + ([c2] + ([c3] + rest)), 0, 0);
    DecodeStep(n1, [c2] + ([c3] + rest), 1, n0);
    DecodeStep(n2, [c3] + rest, 2, n1 % 16);
    DecodeStep(n3, rest, 3, n2 % 4);
  }

  /** The padding ends the decoding. */
  lemma PaddingEnds(left: nat)
    ensures left < 16 ==> B64Decode("==", 2, left, 0) == Some([])
    ensures left < 4 ==> B64Decode("=", 3, left, 0) == Some([])
  {
    assert "=="[1..] == "=";
    assert left < 16 ==> B64Decode("=", 2, left, 1) == Some([]);
  }

  /** A last group of one byte, closed by padding. */
  lemma DecodeOne(n0: nat, n1: nat)
    requires n0 < 64 && n1 < 64
    ensures B64Decode([B64Char(n0), B64Char(n1), '=', '='], 0, 0, 0) == Some([n0 * 4 + n1 / 16])
  {
    var c0, c1 := B64Char(n0), B64Char(n1);
    assert [c0, c1, '=', '='] == [c0] + ([c1] + "==");
    DecodeStep(n0, [c1] + "==", 0, 0);
    DecodeStep(n1, "==", 1, n0);
    PaddingEnds(n1 % 16);
  }

  /** And one of two bytes. */
  lemma DecodeTwo(n0: nat, n1: nat, n2: nat)
    requires n0 < 64 && n1 < 64 && n2 < 64
    ensures B64Decode([B64Char(n0), B64Char(n1), B64Char(n2), '='], 0, 0, 0) ==
      Some([n0 * 4 + n1 / 16, n1 % 16 * 16 + n2 / 4])
  {
    var c0, c1, c2 := B64Char(n0), B64Char(n1), B64Char(n2);
    assert [c0, c1, c2, '='] == [c0] + ([c1] + ([c2] + "="));
    DecodeStep(n0, [c1] + ([c2] + "="), 0, 0);
    DecodeStep(n1, [c2] + "=", 1, n0);
    DecodeStep(n2, "=", 2, n1 % 16);
    PaddingEnds(n2 % 4);
    var x, y := n0 * 4 + n1 / 16, n1 % 16 * 16 + n2 / 4;
    assert [x] + [y] == [x, y];
  }

  lemma GroupRoundTrip(b0: Byte, b1: Byte, b2: Byte, rest: seq<Byte>)
    requires B64Decode(B64Encode(rest), 0, 0, 0) == Some(rest)
    ensures B64Decode(Group(b0, b1, b2) + B64Encode(rest), 0, 0, 0) ==
      Some([b0] + ([b1] + ([b2] + rest)))
  {
    var n0, n1, n2, n3 := b0 / 4, b0 % 4 * 16 + b1 / 16, b1 % 16 * 4 + b2 / 64, b2 % 64;
    DecodeGroup(n0, n1, n2, n3, B64Encode(rest));
    assert n0 * 4 + n1 / 16 == b0 && n1 % 16 * 16 + n2 / 4 == b1 && n2 % 4 * 64 + n3 == b2;
  }

  lemma LastRoundTrip(b0: Byte, b1: Byte)
    ensures B64Decode([B64Char(b0 / 4), B64Char(b0 % 4 * 16), '=', '='], 0, 0, 0) == Some([b0])
    ensures B64Decode([B64Char(b0 / 4), B64Char(b0 % 4 * 16 + b1 / 16), B64Char(b1 % 16 * 4), '='], 0, 0, 0) ==
      Some([b0, b1])
  {
    var n0, m1, n1, n2 := b0 / 4, b0 % 4 * 16, b0 % 4 * 16 + b1 / 16, b1 % 16 * 4;
    DecodeOne(n0, m1);
    DecodeTwo(n0, n1, n2);
    assert n0 * 4 + m1 / 16 == b0 && n0 * 4 + n1 / 16 == b0 && n1 % 16 * 16 + n2 / 4 == b1;
  }

  lemma NothingDecoded()
    ensures B64Decode("", 0, 0, 0) == Some([])
  {
  }

  lemma {:induction false} B64RoundTrip(bs: seq<Byte>)
    ensures B64Decode(B64Encode(bs), 0, 0, 0) == Some(bs)
  {
    hide B64Decode, B64Char;
    if bs == [] {
      NothingDecoded();
    } else if |bs| == 1 {
      LastRoundTrip(bs[0], 0);
      assert bs == [bs[0]];
    } else if |bs| == 2 {
      LastRoundTrip(bs[0], bs[1]);
      assert bs == [bs[0], bs[1]];
    } else {
      B64RoundTrip(bs[3..]);
      GroupRoundTrip(bs[0], bs[1], bs[2], bs[3..]);
      assert bs == [bs[0]] + ([bs[1]] + ([bs[2]] + bs[3..]));
    }
  }

  // ---------------------------------------------------------------- what else the decoder takes

  /** Neither of the alphabet nor padding. */
  predicate IsForeign(c: char) {
    c != '=' && B64Value(c).None?
  }

  /** The bits that the character's value leaves over for the next one. */
  function Kept(quad: nat, v: nat): nat {
    if quad == 0 then v else if quad == 1 then v % 16 else if quad == 2 then v % 4 else 0
  }

  function Cleaned(s: string): string {
    if s == "" then "" else (if IsForeign(s[0]) then "" else [s[0]]) + Cleaned(s[1..])
  }

  /** One character of the alphabet: where it leaves the decoder, whatever follows. */
  lemma OneCharacter(s: string, t: string, quad: nat, left: nat, pads: nat, v: nat)
    requires quad < 4 && left < 64
    requires (quad == 2 ==> left < 16) && (quad == 3 ==> left < 4)
    requires s != "" && t != "" && s[0] == t[0] && s[0] != '=' && B64Value(s[0]) == Some(v)
    ensures B64Decode(s[1..], (quad + 1) % 4, Kept(quad, v), 0) == B64Decode(t[1..], (quad + 1) % 4, Kept(quad, v), 0) ==>
      B64Decode(s, quad, left, pads) == B64Decode(t, quad, left, pads)
    ensures B64Decode(s, quad, left, pads).Some? <==> B64Decode(s[1..], (quad + 1) % 4, Kept(quad, v), 0).Some?
  {
  }

  lemma ForeignCharacter(s: string, quad: nat, left: nat, pads: nat)
    requires quad < 4 && left < 64
    requires (quad == 2 ==> left < 16) && (quad == 3 ==> left < 4)
    requires s != "" && IsForeign(s[0])
    ensures B64Decode(s, quad, left, pads) == B64Decode(s[1..], quad, left, pads)
  {
  }

  lemma CleanedOnce(s: string)
    requires s != ""
    ensures if IsForeign(s[0]) then Cleaned(s) == Cleaned(s[1..])
      else Cleaned(s) != "" && Cleaned(s)[0] == s[0] && Cleaned(s)[1..] == Cleaned(s[1..])
  {
  }

  /** Foreign characters are skipped wherever they stand. */
  lemma {:induction false} ForeignIsSkipped(s: string, quad: nat, left: nat, pads: nat)
    requires quad < 4 && left < 64
    requires (quad == 2 ==> left < 16) && (quad == 3 ==> left < 4)
    ensures B64Decode(Cleaned(s), quad, left, pads) == B64Decode(s, quad, left, pads)
    decreases |s|
  {
    if s != "" {
      CleanedOnce(s);
      var clean, rest := Cleaned(s), s[1..];
      hide B64Decode, Cleaned;
      if s[0] == '=' {
        PaddingEndsTheText(s, quad, left, pads);
        PaddingEndsTheText(clean, quad, left, pads);
        ForeignIsSkipped(rest, quad, left, pads + 1);
      } else if IsForeign(s[0]) {
        ForeignCharacter(s, quad, left, pads);
        ForeignIsSkipped(rest, quad, left, pads);
      } else {
        var v := B64Value(s[0]).value;
        OneCharacter(clean, s, quad, left, pads, v);
        ForeignIsSkipped(rest, (quad + 1) % 4, Kept(quad, v), 0);
      }
    }
  }

  lemma OneMoreOfFour(quad: nat, n: nat)
    requires quad < 4
    ensures ((quad + 1) % 4 + n) % 4 == (quad + (n + 1)) % 4
  {
    if quad == 3 {
      assert (n + 4) % 4 == n % 4;
    }
  }

  lemma KeptFits(quad: nat, v: nat)
    requires quad < 4 && v < 64
    ensures (quad + 1) % 4 < 4 && Kept(quad, v) < 64
    ensures ((quad + 1) % 4 == 2 ==> Kept(quad, v) < 16) && ((quad + 1) % 4 == 3 ==> Kept(quad, v) < 4)
  {
  }

  /** Without padding a text is decoded exactly when its characters of the alphabet make up whole groups. */
  lemma {:induction false} WholeGroupsOnly(s: string, quad: nat, left: nat, pads: nat)
    requires quad < 4 && left < 64
    requires (quad == 2 ==> left < 16) && (quad == 3 ==> left < 4)
    requires '=' !in s
    ensures B64Decode(s, quad, left, pads).Some? <==> (quad + |Cleaned(s)|) % 4 == 0
    decreases |s|
  {
    if s != "" {
      CleanedOnce(s);
      hide B64Decode, Cleaned;
      if IsForeign(s[0]) {
        ForeignCharacter(s, quad, left, pads);
        WholeGroupsOnly(s[1..], quad, left, pads);
      } else {
        var v := B64Value(s[0]).value;
        OneCharacter(s, s, quad, left, pads, v);
        OneMoreOfFour(quad, |Cleaned(s[1..])|);
        KeptFits(quad, v);
        hide B64Value, Kept;
        var next := (quad + 1) % 4;
        WholeGroupsOnly(s[1..], next, Kept(quad, v), 0);
      }
    }
  }

  /** Padding ends a group of two or three characters, and whatever follows is not read; it does not end a shorter
      one. */
  lemma PaddingEndsTheText(s: string, quad: nat, left: nat, pads: nat)
    requires quad < 4 && left < 64 && s != "" && s[0] == '='
    requires (quad == 2 ==> left < 16) && (quad == 3 ==> left < 4)
    ensures B64Decode(s, quad, left, pads) ==
      if quad == 3 || (quad == 2 && pads >= 1) then Some([]) else B64Decode(s[1..], quad, left, pads + 1)
  {
  }

  // ---------------------------------------------------------------- padding

  /** str.rstrip("=") */
  function StripPad(s: string): string {
    if s != "" && s[|s| - 1] == '=' then StripPad(s[..|s| - 1]) else s
  }

  function Repeat(c: char, n: nat): (s: string)
    ensures |s| == n && forall i :: 0 <= i < n ==> s[i] == c
  {
    if n == 0 then "" else Repeat(c, n - 1) + [c]
  }

  /** cursor + "=" * (-len(cursor) % 4) */
  function Repad(s: string): string {
    s + Repeat('=', (-|s|) % 4)
  }

  /** The encoder's output without its padding. */
  function Body(bs: seq<Byte>): string {
    if |bs| == 0 then ""
    else if |bs| == 1 then [B64Char(bs[0] / 4), B64Char(bs[0] % 4 * 16)]
    else if |bs| == 2 then
      [B64Char(bs[0] / 4), B64Char(bs[0] % 4 * 16 + bs[1] / 16), B64Char(bs[1] % 16 * 4)]
    else
      Group(bs[0], bs[1], bs[2]) + Body(bs[3..])
  }

  function PadLength(bs: seq<Byte>): nat {
    if |bs| >= 3 then PadLength(bs[3..]) else if |bs| == 0 then 0 else 3 - |bs|
  }

  /** The padding is at most two characters and stands only at the end. */
  lemma {:induction false} EncodedShape(bs: seq<Byte>)
    ensures PadLength(bs) < 3
    ensures B64Encode(bs) == Body(bs) + Repeat('=', PadLength(bs))
    ensures (|Body(bs)| + PadLength(bs)) % 4 == 0
  {
    hide B64Encode, Body, Repeat;
    if |bs| >= 3 {
      EncodedShape(bs[3..]);
      GroupInFront(bs, Repeat('=', PadLength(bs)));
    } else {
      ShortShape(bs);
    }
  }

  lemma GroupInFront(bs: seq<Byte>, pad: string)
    requires |bs| >= 3 && B64Encode(bs[3..]) == Body(bs[3..]) + pad
    ensures B64Encode(bs) == Body(bs) + pad && |Body(bs)| == 4 + |Body(bs[3..])|
  {
    hide B64Encode, Body, Group;
    FirstGroup(bs);
    Assoc(Group(bs[0], bs[1], bs[2]), Body(bs[3..]), pad);
  }

  lemma FirstGroup(bs: seq<Byte>)
    requires |bs| >= 3
    ensures B64Encode(bs) == Group(bs[0], bs[1], bs[2]) + B64Encode(bs[3..])
    ensures Body(bs) == Group(bs[0], bs[1], bs[2]) + Body(bs[3..])
  {
    hide Group;
  }

  lemma ShortShape(bs: seq<Byte>)
    requires |bs| < 3
    ensures B64Encode(bs) == Body(bs) + Repeat('=', PadLength(bs))
    ensures (|Body(bs)| + PadLength(bs)) % 4 == 0
  {
    hide B64Char;
    assert Repeat('=', 1) == "=" && Repeat('=', 2) == "==";
  }

  lemma {:induction false} BodyIsUrlSafe(bs: seq<Byte>)
    ensures UrlSafe(Body(bs))
  {
    if |bs| == 1 {
      GroupIsUrlSafe(bs[0], 0, 0);
    } else if |bs| == 2 {
      GroupIsUrlSafe(bs[0], bs[1], 0);
    } else if |bs| >= 3 {
      GroupIsUrlSafe(bs[0], bs[1], bs[2]);
      BodyIsUrlSafe(bs[3..]);
    }
  }

  lemma BodyEnd(bs: seq<Byte>)
    ensures Body(bs) != "" ==> Body(bs)[|Body(bs)| - 1] != '='
  {
    hide B64Encode, Body;
    BodyIsUrlSafe(bs);
  }

  lemma GroupIsUrlSafe(b0: Byte, b1: Byte, b2: Byte)
    ensures IsUrlSafe(B64Char(b0 / 4)) && IsUrlSafe(B64Char(b0 % 4 * 16 + b1 / 16))
    ensures IsUrlSafe(B64Char(b1 % 16 * 4 + b2 / 64)) && IsUrlSafe(B64Char(b2 % 64))
  {
    B64CharIsUrlSafe(b0 / 4);
    B64CharIsUrlSafe(b0 % 4 * 16 + b1 / 16);
    B64CharIsUrlSafe(b1 % 16 * 4 + b2 / 64);
    B64CharIsUrlSafe(b2 % 64);
  }

  lemma {:induction false} StripRepeated(body: string, pad: nat)
    requires body == "" || body[|body| - 1] != '='
    ensures StripPad(body + Repeat('=', pad)) == body
  {
    if pad == 0 {
      assert body + "" == body;
    } else {
      assert (body + Repeat('=', pad))[..|body| + pad - 1] == body + Repeat('=', pad - 1);
      StripRepeated(body, pad - 1);
    }
  }

  /** RFC 4648 section 3.2: padding may be dropped where the length is implied. Dropping it and padding
      again by the length modulo four gives the same text back, and what is left is safe in a URL. */
  lemma PaddingRoundTrip(bs: seq<Byte>)
    ensures Repad(StripPad(B64Encode(bs))) == B64Encode(bs)
    ensures UrlSafe(StripPad(B64Encode(bs)))
  {
    hide B64Encode, Body, PadLength, StripPad, IsUrlSafe;
    EncodedShape(bs);
    BodyIsUrlSafe(bs);
    BodyEnd(bs);
    StripRepeated(Body(bs), PadLength(bs));
    MissingPad(|Body(bs)|, PadLength(bs));
  }

  lemma MissingPad(n: int, pad: int)
    requires 0 <= pad < 4 && (n + pad) % 4 == 0
    ensures (-n) % 4 == pad
  {
    assert -n == pad - 4 * ((n + pad) / 4);
  }

  // ---------------------------------------------------------------- text

  function AsciiBytes(s: string): (bs: seq<Byte>)
    requires forall i :: 0 <= i < |s| ==> s[i] as int < 128
    ensures |bs| == |s|
  {
    seq(|s|, i requires 0 <= i < |s| => s[i] as int as Byte)
  }

  function FromAscii(bs: seq<Byte>): Option<string> {
    if forall i :: 0 <= i < |bs| ==> bs[i] < 128
    then Some(seq(|bs|, i requires 0 <= i < |bs| => bs[i] as char))
    else None
  }

  lemma FromAsciiBytes(s: string)
    requires forall i :: 0 <= i < |s| ==> s[i] as int < 128
    ensures FromAscii(AsciiBytes(s)) == Some(s)
  {
    var t := FromAscii(AsciiBytes(s)).value;
    assert forall i :: 0 <= i < |s| ==> t[i] == AsciiBytes(s)[i] as char;
    assert forall i :: 0 <= i < |s| ==> t[i] == s[i];
    assert t == s;
  }

  /** Where the first separator stands, or the length when there is none. */
  function FindSep(s: string): (k: nat)
    ensures k <= |s| && forall i :: 0 <= i < k ==> s[i] != '|'
    ensures k < |s| ==> s[k] == '|'
  {
    if s == "" || s[0] == '|' then 0 else FindSep(s[1..]) + 1
  }

  lemma SplitAtFirst(a: string, b: string)
    requires '|' !in a
    ensures FindSep(a + "|" + b) == |a|
  {
    var s := a + "|" + b;
    assert s[|a|] == '|';
    assert forall i :: 0 <= i < |a| ==> s[i] == a[i];
  }

  // ---------------------------------------------------------------- cursors

  /** The sort key of a row. */
  datatype Key = Key(at: Timestamp, id: int)

  datatype CursorError = InvalidCursor

  predicate Ascii(s: string) {
    forall i :: 0 <= i < |s| ==> s[i] as int < 128
  }

  function RawCursor(k: Key): (s: string)
    requires ValidTimestamp(k.at)
  {
    FormatIso(k.at) + "|" + PrintInt(k.id)
  }

  lemma RawIsAscii(k: Key)
    requires ValidTimestamp(k.at)
    ensures Ascii(RawCursor(k)) && '|' !in FormatIso(k.at)
  {
    IsoIsPlain(k.at);
    hide FormatIso;
    assert forall i :: 0 <= i < |PrintInt(k.id)| ==> PrintInt(k.id)[i] as int < 128;
  }

  predicate IsPlain(s: string) {
    forall i :: 0 <= i < |s| ==> s[i] as int < 124
  }

  lemma PlainJoin(a: string, b: string)
    requires IsPlain(a) && IsPlain(b)
    ensures IsPlain(a + b)
  {
  }

  /** Microseconds are printed only where there are some. */
  lemma IsoLength(t: Timestamp)
    requires ValidTimestamp(t)
    ensures |FormatIso(t)| == if t.micro == 0 then 25 else 32
  {
    WidthFacts();
  }

  lemma DatePartsArePlain(t: Timestamp)
    requires ValidTimestamp(t)
    ensures IsPlain(FormatDate(t)) && IsPlain(FormatTime(t))
  {
    WidthFacts();
  }

  lemma IsoIsPlain(t: Timestamp)
    requires ValidTimestamp(t)
    ensures IsPlain(FormatIso(t))
  {
    WidthFacts();
    DatePartsArePlain(t);
    hide FormatDate, FormatTime, Padded;
    var fraction := if t.micro == 0 then "" else "." + Padded(t.micro, 6);
    PlainJoin(FormatDate(t), "T");
    PlainJoin(FormatDate(t) + "T", FormatTime(t));
    PlainJoin(FormatDate(t) + "T" + FormatTime(t), fraction);
    PlainJoin(FormatDate(t) + "T" + FormatTime(t) + fraction, "+00:00");
  }

  function EncodeCursor(k: Key): string
    requires ValidTimestamp(k.at)
  {
    RawIsAscii(k);
    StripPad(B64Encode(AsciiBytes(RawCursor(k))))
  }

  function DecodeCursor(cursor: string): (r: Result<Key, CursorError>)
    ensures r.Ok? ==> ValidTimestamp(r.value.at)
  {
    match B64Decode(Repad(cursor), 0, 0, 0)
    case None => Err(InvalidCursor)
    case Some(bytes) =>
      match FromAscii(bytes)
      case None => Err(InvalidCursor)
      case Some(raw) =>
        var k := FindSep(raw);
        if k == |raw| then Err(InvalidCursor)
        else
          match (ParseIso(raw[..k]), ParseInt(raw[k + 1..]))
          case (Some(at), Some(id)) => Ok(Key(at, id))
          case _ => Err(InvalidCursor)
  }

  lemma {:induction false} CursorRoundTrip(k: Key)
    requires ValidTimestamp(k.at)
    ensures DecodeCursor(EncodeCursor(k)) == Ok(k)
    ensures UrlSafe(EncodeCursor(k))
  {
    hide FormatIso, ParseIso, PrintInt, ParseInt, B64Encode, B64Decode, StripPad;
    RawIsAscii(k);
    var raw := RawCursor(k);
    PaddingRoundTrip(AsciiBytes(raw));
    B64RoundTrip(AsciiBytes(raw));
    FromAsciiBytes(raw);
    var ts, id := FormatIso(k.at), PrintInt(k.id);
    SplitAtFirst(ts, id);
    assert raw[..|ts|] == ts && raw[|ts| + 1..] == id;
    ParseFormatIso(k.at);
    ParsePrintInt(k.id);
  }

  /** Two rows never share a cursor, so a cursor names one boundary. */
  lemma {:induction false} CursorInjective(a: Key, b: Key)
    requires ValidTimestamp(a.at) && ValidTimestamp(b.at)
    requires EncodeCursor(a) == EncodeCursor(b)
    ensures a == b
  {
    CursorRoundTrip(a);
    CursorRoundTrip(b);
  }

  /** The cursor decodes to a timestamp's text, the separator, and a number's text. */
  ghost predicate Spells(cursor: string, k: Key) {
    exists at: string, id: string ::
      Decoded(cursor) == Some(at + "|" + id) && '|' !in at && ParseIso(at) == Some(k.at) && ParseInt(id) == Some(k.id)
  }

  function Decoded(cursor: string): Option<string> {
    match B64Decode(Repad(cursor), 0, 0, 0)
    case None => None
    case Some(bytes) => FromAscii(bytes)
  }

  /** A cursor is accepted exactly when it spells a key, and is that key. */
  lemma DecodesExactly(cursor: string, k: Key)
    ensures DecodeCursor(cursor) == Ok(k) <==> Spells(cursor, k)
  {
    hide B64Decode, Repad, FromAscii, ParseIso, ParseInt;
    if Spells(cursor, k) {
      var at, id :| Decoded(cursor) == Some(at + "|" + id) && '|' !in at && ParseIso(at) == Some(k.at) && ParseInt(id) == Some(k.id);
      SplitAtFirst(at, id);
      var raw := at + "|" + id;
      assert raw[..|at|] == at && raw[|at| + 1..] == id;
    }
    if DecodeCursor(cursor) == Ok(k) {
      DecodedIsSpelt(cursor, k);
    }
  }

  lemma DecodedIsSpelt(cursor: string, k: Key)
    requires DecodeCursor(cursor) == Ok(k)
    ensures Spells(cursor, k)
  {
    hide B64Decode, Repad, FromAscii, ParseIso, ParseInt;
    var raw := Decoded(cursor).value;
    var n := FindSep(raw);
    assert raw == raw[..n] + "|" + raw[n + 1..];
    assert '|' !in raw[..n];
  }
}
