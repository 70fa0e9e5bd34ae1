/** The JSON-LD payload of a prerendered page: what json.dumps prints, with '<', '>' and '&' replaced by
    unicode escapes so that it can stand inside a script element, and what a JSON parser reads back from it. */
module JsonLd {
  import opened Prelude
  import opened Digits

  /** A character of a Python str: any code point, surrogates included. */
  type CodePoint = n: nat | n < 0x110000
  type Text = seq<CodePoint>

  datatype Member = Member(key: Text, value: Json)

  datatype Json =
    | Null
    | Bool(b: bool)
    | Int(i: int)
    | Str(s: Text)
    | Arr(items: seq<Json>)
    | Obj(members: seq<Member>)

  // ---------------------------------------------------------------- printing

  function HexDigit(n: nat): (c: char)
    requires n < 16
  {
    if n < 10 then (48 + n) as char else (87 + n) as char
  }

  function Hex4(n: nat): string
    requires n < 0x10000
  {
    [HexDigit(n / 4096), HexDigit(n / 256 % 16), HexDigit(n / 16 % 16), HexDigit(n % 16)]
  }

  function UnicodeEscape(n: nat): string
    requires n < 0x10000
  {
    ['\\', 'u'] + Hex4(n)
  }

  predicate IsHigh(n: nat) {
    0xd800 <= n < 0xdc00
  }

  predicate IsLow(n: nat) {
    0xdc00 <= n < 0xe000
  }

  function HighOf(c: CodePoint): nat
    requires c >= 0x10000
  {
    0xd800 + (c - 0x10000) / 1024
  }

  function LowOf(c: CodePoint): nat
    requires c >= 0x10000
  {
    0xdc00 + (c - 0x10000) % 1024
  }

  /** The escape table of json.dumps with ensure_ascii. */
  function EscapeChar(c: CodePoint): string {
    if c == 34 then ['\\', '"']
    else if c == 92 then ['\\', '\\']
    else if c == 10 then ['\\', 'n']
    else if c == 13 then ['\\', 'r']
    else if c == 9 then ['\\', 't']
    else if c == 12 then ['\\', 'f']
    else if c == 8 then ['\\', 'b']
    else if 32 <= c <= 126 then [c as char]
    else if c < 0x10000 then UnicodeEscape(c)
    else UnicodeEscape(HighOf(c)) + UnicodeEscape(LowOf(c))
  }

  predicate IsMarkup(c: char) {
    c == '<' || c == '>' || c == '&'
  }

  /** str.replace of one character. */
  function Replace(s: string, c: char, substitute: string): string {
    if s == "" then "" else (if s[0] == c then substitute else [s[0]]) + Replace(s[1..], c, substitute)
  }

  function Guard(s: string): string {
    Replace(Replace(Replace(s, '<', UnicodeEscape(0x3c)), '>', UnicodeEscape(0x3e)), '&', UnicodeEscape(0x26))
  }

  /** The escape of one character in the finished text. */
  function Escape(c: CodePoint, guarded: bool): string {
    if guarded && (c == 0x3c || c == 0x3e || c == 0x26) then UnicodeEscape(c) else EscapeChar(c)
  }

  function EscapeText(s: Text, guarded: bool): string {
    if s == [] then "" else Escape(s[0], guarded) + EscapeText(s[1..], guarded)
  }

  function DumpText(s: Text, guarded: bool): string {
    "\"" + EscapeText(s, guarded) + "\""
  }

  /** json.dumps when `guarded` is false; with it, every string is printed with the three replacements made. */
  function Dumps(v: Json, guarded: bool): string
    decreases v, 1
  {
    match v
    case Null => "null"
    case Bool(b) => if b then "true" else "false"
    case Int(i) => PrintInt(i)
    case Str(s) => DumpText(s, guarded)
    case Arr(items) => if items == [] then "[]" else "[" + DumpItems(items, guarded) + "]"
    case Obj(members) => if members == [] then "{}" else "{" + DumpMembers(members, guarded) + "}"
  }

  function DumpItems(items: seq<Json>, guarded: bool): string
    requires items != []
    decreases items, 0
  {
    Dumps(items[0], guarded) + (if |items| == 1 then "" else ", " + DumpItems(items[1..], guarded))
  }

  function DumpMembers(members: seq<Member>, guarded: bool): string
    requires members != []
    decreases members, 0
  {
    DumpText(members[0].key, guarded) + ": " + Dumps(members[0].value, guarded)
    + (if |members| == 1 then "" else ", " + DumpMembers(members[1..], guarded))
  }

  function Ascii(s: string): (t: Text)
    requires forall i :: 0 <= i < |s| ==> s[i] as int < 128
    ensures |t| == |s| && forall i :: 0 <= i < |t| ==> t[i] < 128
  {
    seq(|s|, i requires 0 <= i < |s| => s[i] as int)
  }

  const CONTEXT_KEY := Ascii("@context")
  const GRAPH_KEY := Ascii("@graph")
  const SCHEMA_ORG := Ascii("https://schema.org")

  function Payload(graph: seq<Json>): Json {
    Obj([Member(CONTEXT_KEY, Str(SCHEMA_ORG)), Member(GRAPH_KEY, Arr(graph))])
  }

  function EncodeJsonldGraph(graph: seq<Json>): string {
    Guard(Dumps(Payload(graph), false))
  }

  // ---------------------------------------------------------------- reading (RFC 8259)

  function HexValue(c: char): (v: Option<nat>)
    ensures v.Some? ==> v.value < 16
  {
    if '0' <= c <= '9' then Some(c as int - 48)
    else if 'a' <= c <= 'f' then Some(c as int - 87)
    else if 'A' <= c <= 'F' then Some(c as int - 55)
    else None
  }

  /** One \uXXXX escape at the front of s. */
  function ReadUnit(s: string): (r: Option<(nat, string)>)
    ensures r.Some? ==> r.value.0 < 0x10000 && |r.value.1| == |s| - 6
  {
    if |s| < 6 || s[0] != '\\' || s[1] != 'u' then None
    else
      match (HexValue(s[2]), HexValue(s[3]), HexValue(s[4]), HexValue(s[5]))
      case (Some(a), Some(b), Some(c), Some(d)) => Some((4096 * a + 256 * b + 16 * c + d, s[6..]))
      case _ => None
  }

  function SimpleEscape(c: char): Option<CodePoint> {
    if c == '"' then Some(34) else if c == '\\' then Some(92) else if c == '/' then Some(47)
    else if c == 'b' then Some(8) else if c == 'f' then Some(12) else if c == 'n' then Some(10)
    else if c == 'r' then Some(13) else if c == 't' then Some(9) else None
  }

  function Combine(hi: nat, lo: nat): CodePoint
    requires IsHigh(hi) && IsLow(lo)
  {
    0x10000 + (hi - 0xd800) * 1024 + (lo - 0xdc00)
  }

  /** One character of a string: section 7, where two escapes that form a surrogate pair are one character. */
  function ReadChar(s: string): (r: Option<(CodePoint, string)>)
    ensures r.Some? ==> |r.value.1| < |s|
  {
    if s == "" || s[0] == '"' || s[0] as int < 0x20 then None
    else if s[0] != '\\' then Some((s[0] as int, s[1..]))
    else if |s| > 1 && SimpleEscape(s[1]).Some? then Some((SimpleEscape(s[1]).value, s[2..]))
    else
      match ReadUnit(s)
      case None => None
      case Some((n, rest)) =>
        match ReadUnit(rest)
        case Some((m, after)) => if IsHigh(n) && IsLow(m) then Some((Combine(n, m), after)) else Some((n, rest))
        case None => Some((n, rest))
  }

  /** The rest of a string after its opening quote. */
  function ParseText(s: string): (r: Option<(Text, string)>)
    ensures r.Some? ==> |r.value.1| < |s|
    decreases |s|
  {
    if s != "" && s[0] == '"' then Some(([], s[1..]))
    else
      match ReadChar(s)
      case None => None
      case Some((c, rest)) =>
        match ParseText(rest)
        case None => None
        case Some((t, after)) => Some(([c] + t, after))
  }

  function SkipSpace(s: string): (r: string)
    ensures |r| <= |s|
  {
    if s != "" && (s[0] == ' ' || s[0] == '\n' || s[0] == '\t' || s[0] == '\r') then SkipSpace(s[1..]) else s
  }

  /** s without the word w at its front. */
  function Drop(w: string, s: string): (r: Option<string>)
    ensures r.Some? ==> |r.value| == |s| - |w|
  {
    if w <= s then Some(s[|w|..]) else None
  }

  /** An integer: section 6 without fraction and exponent, which no value here prints. */
  function ParseNumber(s: string): (r: Option<(int, string)>)
    ensures r.Some? ==> |r.value.1| < |s|
  {
    var negative := s != "" && s[0] == '-';
    var (digits, rest) := SpanDigits(if negative then s[1..] else s);
    if digits == "" || (digits[0] == '0' && |digits| > 1) || !EndsNumber(rest) then None
    else if negative then Some((-(NatOf(digits) as int), rest)) else Some((NatOf(digits), rest))
  }

  predicate EndsNumber(rest: string) {
    rest == "" || (!IsDigit(rest[0]) && rest[0] != '.' && rest[0] != 'e' && rest[0] != 'E')
  }

  function ParseValue(s0: string): (r: Option<(Json, string)>)
    ensures r.Some? ==> |r.value.1| < |s0|
    decreases |s0|, 1
  {
    var s := SkipSpace(s0);
    if s == "" then None
    else if s[0] == '"' then
      match ParseText(s[1..])
      case None => None
      case Some((t, rest)) => Some((Str(t), rest))
    else if s[0] == '[' then
      var inside := SkipSpace(s[1..]);
      if inside != "" && inside[0] == ']' then Some((Arr([]), inside[1..]))
      else
        match ParseItems(s[1..])
        case None => None
        case Some((items, rest)) => Some((Arr(items), rest))
    else if s[0] == '{' then
      var inside := SkipSpace(s[1..]);
      if inside != "" && inside[0] == '}' then Some((Obj([]), inside[1..]))
      else
        match ParseMembers(s[1..])
        case None => None
        case Some((members, rest)) => Some((Obj(members), rest))
    else if Drop("null", s).Some? then Some((Null, Drop("null", s).value))
    else if Drop("true", s).Some? then Some((Bool(true), Drop("true", s).value))
    else if Drop("false", s).Some? then Some((Bool(false), Drop("false", s).value))
    else
      match ParseNumber(s)
      case None => None
      case Some((i, rest)) => Some((Int(i), rest))
  }

  /** One or more values up to the closing bracket. */
  function ParseItems(s: string): (r: Option<(seq<Json>, string)>)
    ensures r.Some? ==> |r.value.1| < |s|
    decreases |s|, 2
  {
    match ParseValue(s)
    case None => None
    case Some((v, after)) =>
      var rest := SkipSpace(after);
      if rest == "" then None
      else if rest[0] == ']' then Some(([v], rest[1..]))
      else if rest[0] != ',' then None
      else
        match ParseItems(rest[1..])
        case None => None
        case Some((vs, end)) => Some(([v] + vs, end))
  }

  /** One or more members up to the closing brace. */
  function ParseMembers(s: string): (r: Option<(seq<Member>, string)>)
    ensures r.Some? ==> |r.value.1| < |s|
    decreases |s|, 2
  {
    var start := SkipSpace(s);
    if start == "" || start[0] != '"' then None
    else
      match ParseText(start[1..])
      case None => None
      case Some((key, afterKey)) =>
        var colon := SkipSpace(afterKey);
        if colon == "" || colon[0] != ':' then None
        else
          match ParseValue(colon[1..])
          case None => None
          case Some((v, after)) =>
            var rest := SkipSpace(after);
            if rest == "" then None
            else if rest[0] == '}' then Some(([Member(key, v)], rest[1..]))
            else if rest[0] != ',' then None
            else
              match ParseMembers(rest[1..])
              case None => None
              case Some((ms, end)) => Some(([Member(key, v)] + ms, end))
  }

  function ParseDocument(s: string): Option<Json> {
    match ParseValue(s)
    case Some((v, rest)) => if SkipSpace(rest) == "" then Some(v) else None
    case None => None
  }

  // ---------------------------------------------------------------- surrogates

  /** The text with every high surrogate that stands before a low one merged with it: what this reader of
      \u escapes makes of it. */
  function Merge(s: Text): Text {
    if |s| >= 2 && IsHigh(s[0]) && IsLow(s[1]) then [Combine(s[0], s[1])] + Merge(s[2..])
    else if s == [] then []
    else [s[0]] + Merge(s[1..])
  }

  predicate NoSplitPair(s: Text) {
    forall i :: 0 <= i < |s| - 1 ==> !(IsHigh(s[i]) && IsLow(s[i + 1]))
  }

  lemma {:induction false} MergeShape(s: Text)
    ensures |Merge(s)| <= |s|
    ensures NoSplitPair(s) ==> Merge(s) == s
    ensures !NoSplitPair(s) ==> |Merge(s)| < |s|
  {
    if |s| >= 2 && IsHigh(s[0]) && IsLow(s[1]) {
      MergeShape(s[2..]);
    } else if s != [] {
      MergeShape(s[1..]);
      if NoSplitPair(s) {
        forall i | 0 <= i < |s[1..]| - 1 ensures !(IsHigh(s[1..][i]) && IsLow(s[1..][i + 1])) {
          assert s[1..][i] == s[i + 1] && s[1..][i + 1] == s[i + 1 + 1];
        }
        assert [s[0]] + s[1..] == s;
      } else {
        var i :| 0 <= i < |s| - 1 && IsHigh(s[i]) && IsLow(s[i + 1]);
        assert s[1..][i - 1] == s[i] && s[1..][i] == s[i + 1];
        assert !NoSplitPair(s[1..]);
      }
    }
  }

  function Merged(v: Json): Json
    decreases v, 1
  {
    match v
    case Str(s) => Str(Merge(s))
    case Arr(items) => Arr(MergedItems(items))
    case Obj(members) => Obj(MergedMembers(members))
    case _ => v
  }

  function MergedItems(items: seq<Json>): (r: seq<Json>)
    ensures |r| == |items|
    decreases items, 0
  {
    if items == [] then [] else [Merged(items[0])] + MergedItems(items[1..])
  }

  function MergedMembers(members: seq<Member>): (r: seq<Member>)
    ensures |r| == |members|
    decreases members, 0
  {
    if members == [] then []
    else [Member(Merge(members[0].key), Merged(members[0].value))] + MergedMembers(members[1..])
  }

  /** No string of the value, key or content, holds a high surrogate right before a low one. */
  predicate Unsplit(v: Json)
    decreases v, 1
  {
    match v
    case Str(s) => NoSplitPair(s)
    case Arr(items) => UnsplitItems(items)
    case Obj(members) => UnsplitMembers(members)
    case _ => true
  }

  predicate UnsplitItems(items: seq<Json>)
    decreases items, 0
  {
    items != [] ==> Unsplit(items[0]) && UnsplitItems(items[1..])
  }

  predicate UnsplitMembers(members: seq<Member>)
    decreases members, 0
  {
    members != [] ==> NoSplitPair(members[0].key) && Unsplit(members[0].value) && UnsplitMembers(members[1..])
  }

  lemma {:induction false} MergedIffUnsplit(v: Json)
    ensures Merged(v) == v <==> Unsplit(v)
    decreases v, 1
  {
    match v
    case Str(s) => MergeShape(s);
    case Arr(items) => MergedItemsIffUnsplit(items);
    case Obj(members) => MergedMembersIffUnsplit(members);
    case _ =>
  }

  lemma {:induction false} MergedItemsIffUnsplit(items: seq<Json>)
    ensures MergedItems(items) == items <==> UnsplitItems(items)
    decreases items, 0
  {
    if items != [] {
      MergedIffUnsplit(items[0]);
      MergedItemsIffUnsplit(items[1..]);
      var r := MergedItems(items);
      assert items == [items[0]] + items[1..];
      assert r[0] == Merged(items[0]) && r[1..] == MergedItems(items[1..]);
    }
  }

  lemma {:induction false} MergedMembersIffUnsplit(members: seq<Member>)
    ensures MergedMembers(members) == members <==> UnsplitMembers(members)
    decreases members, 0
  {
    if members != [] {
      MergeShape(members[0].key);
      MergedIffUnsplit(members[0].value);
      MergedMembersIffUnsplit(members[1..]);
      var r := MergedMembers(members);
      assert members == [members[0]] + members[1..];
      assert r[0].value == Merged(members[0].value) && r[0].key == Merge(members[0].key);
      assert r[1..] == MergedMembers(members[1..]);
    }
  }

  // ---------------------------------------------------------------- reading strings back

  lemma HexInverse(n: nat)
    requires n < 16
    ensures HexValue(HexDigit(n)) == Some(n)
  {
  }

  lemma FourDigits(n: nat)
    requires n < 0x10000
    ensures n / 4096 < 16 && 4096 * (n / 4096) + 256 * (n / 256 % 16) + 16 * (n / 16 % 16) + n % 16 == n
  {
    assert n / 256 == n / 4096 * 16 + n / 256 % 16;
    assert n / 16 == n / 256 * 16 + n / 16 % 16;
  }

  lemma ReadEscapedUnit(n: nat, rest: string)
    requires n < 0x10000
    ensures ReadUnit(UnicodeEscape(n) + rest) == Some((n, rest))
    ensures |UnicodeEscape(n)| == 6 && UnicodeEscape(n)[0] == '\\' && UnicodeEscape(n)[1] == 'u'
  {
    FourDigits(n);
    HexInverse(n / 4096);
    HexInverse(n / 256 % 16);
    HexInverse(n / 16 % 16);
    HexInverse(n % 16);
    hide HexValue, HexDigit;
    var s := UnicodeEscape(n) + rest;
    assert s[2] == HexDigit(n / 4096) && s[3] == HexDigit(n / 256 % 16) && s[4] == HexDigit(n / 16 % 16) && s[5] == HexDigit(n % 16);
    assert s[6..] == rest;
  }

  lemma PairInverse(c: CodePoint)
    requires c >= 0x10000
    ensures IsHigh(HighOf(c)) && IsLow(LowOf(c)) && Combine(HighOf(c), LowOf(c)) == c
  {
  }

  /** The four shapes an escape can have. */
  ghost predicate IsEscapeOf(e: string, c: CodePoint) {
    || (32 <= c < 127 && c != 34 && c != 92 && e == [c as char])
    || (c < 127 && |e| == 2 && e[0] == '\\' && SimpleEscape(e[1]) == Some(c))
    || (c < 0x10000 && e == UnicodeEscape(c))
    || (c >= 0x10000 && e == UnicodeEscape(HighOf(c)) + UnicodeEscape(LowOf(c)))
  }

  lemma EscapeShape(c: CodePoint)
    ensures IsEscapeOf(Escape(c, true), c)
    ensures IsHigh(c) || IsLow(c) ==> Escape(c, true) == UnicodeEscape(c)
  {
    hide UnicodeEscape;
  }

  lemma SimpleIsNotUnicode(c: char)
    requires SimpleEscape(c).Some?
    ensures c != 'u' && !IsHigh(SimpleEscape(c).value) && !IsLow(SimpleEscape(c).value)
  {
  }

  /** A character that is not a lone high surrogate is read without looking ahead. */
  lemma ReadPlain(c: CodePoint, rest: string)
    requires !IsHigh(c)
    ensures ReadChar(Escape(c, true) + rest) == Some((c, rest))
  {
    EscapeShape(c);
    var e := Escape(c, true);
    hide Escape, UnicodeEscape, ReadUnit, SimpleEscape;
    var s := e + rest;
    if c >= 0x10000 {
      PairInverse(c);
      hide Combine, HighOf, LowOf;
      var low := UnicodeEscape(LowOf(c)) + rest;
      ReadEscapedUnit(LowOf(c), rest);
      ReadEscapedUnit(HighOf(c), low);
      assert e == UnicodeEscape(HighOf(c)) + UnicodeEscape(LowOf(c)) ==> s == UnicodeEscape(HighOf(c)) + low;
      ReadPair(HighOf(c), LowOf(c), s, low, rest);
    } else if |e| == 1 {
      ReadEscapedUnit(c, rest);
      assert s[1..] == rest;
    } else if |e| == 2 {
      ReadEscapedUnit(c, rest);
      assert s[2..] == rest;
    } else {
      ReadEscapedUnit(c, rest);
      ReadLone(c, s, rest);
    }
  }

  lemma ReadPair(hi: nat, lo: nat, s: string, low: string, rest: string)
    requires IsHigh(hi) && IsLow(lo)
    requires |s| > 1 && s[0] == '\\' && s[1] == 'u' && ReadUnit(s) == Some((hi, low)) && ReadUnit(low) == Some((lo, rest))
    ensures ReadChar(s) == Some((Combine(hi, lo), rest))
  {
    hide ReadUnit, Combine;
  }

  lemma ReadLone(c: CodePoint, s: string, rest: string)
    requires |s| > 1 && s[0] == '\\' && s[1] == 'u' && ReadUnit(s) == Some((c, rest))
    requires !IsHigh(c) || ReadUnit(rest).None? || !IsLow(ReadUnit(rest).value.0)
    ensures ReadChar(s) == Some((c, rest))
  {
    hide ReadUnit, Combine;
  }

  /** What stands in front of the rest of a string: a low surrogate's escape exactly when the text says so. */
  lemma UnitAhead(s: Text, tail: string)
    requires tail != "" && tail[0] == '"'
    ensures var r := ReadUnit(EscapeText(s, true) + tail);
      if s != [] && IsLow(s[0]) then r == Some((s[0], EscapeText(s[1..], true) + tail))
      else r.None? || !IsLow(r.value.0)
  {
    var all := EscapeText(s, true) + tail;
    if s == [] {
      assert all[0] == '"';
    } else {
      var c, rest := s[0], EscapeText(s[1..], true) + tail;
      EscapeShape(c);
      assert all == Escape(c, true) + rest;
      UnitInFront(c, Escape(c, true), rest);
    }
  }

  lemma UnitInFront(c: CodePoint, e: string, rest: string)
    requires IsEscapeOf(e, c) && (IsLow(c) ==> e == UnicodeEscape(c))
    ensures var r := ReadUnit(e + rest);
      if IsLow(c) then r == Some((c, rest)) else r.None? || !IsLow(r.value.0)
  {
    hide UnicodeEscape, SimpleEscape;
    var s := e + rest;
    if c >= 0x10000 {
      PairInverse(c);
      var low := UnicodeEscape(LowOf(c)) + rest;
      ReadEscapedUnit(HighOf(c), low);
      assert e == UnicodeEscape(HighOf(c)) + UnicodeEscape(LowOf(c)) ==> s == UnicodeEscape(HighOf(c)) + low;
    } else {
      ReadEscapedUnit(c, rest);
      if |e| == 2 {
        assert s[0] == e[0] && s[1] == e[1];
        SimpleIsNotUnicode(e[1]);
      }
    }
  }

  lemma EscapeStart(c: CodePoint)
    ensures Escape(c, true) != "" && Escape(c, true)[0] != '"'
  {
    EscapeShape(c);
    hide Escape, SimpleEscape;
    if c >= 0x10000 {
      ReadEscapedUnit(HighOf(c), "");
    } else {
      ReadEscapedUnit(c, "");
    }
  }

  /** One step of a string: a character, or two that form a surrogate pair. */
  lemma ReadNext(s: Text, tail: string)
    requires s != [] && tail != "" && tail[0] == '"'
    ensures ReadChar(EscapeText(s, true) + tail) ==
      if |s| >= 2 && IsHigh(s[0]) && IsLow(s[1]) then Some((Combine(s[0], s[1]), EscapeText(s[2..], true) + tail))
      else Some((s[0], EscapeText(s[1..], true) + tail))
  {
    FirstEscape(s, tail);
    hide Escape, ReadChar, Combine, EscapeText;
    if IsHigh(s[0]) {
      ReadHigh(s, tail);
    } else {
      ReadPlain(s[0], EscapeText(s[1..], true) + tail);
    }
  }

  lemma FirstEscape(s: Text, tail: string)
    requires s != []
    ensures EscapeText(s, true) + tail == Escape(s[0], true) + (EscapeText(s[1..], true) + tail)
  {
    hide Escape;
  }

  lemma HighEscape(c: CodePoint)
    requires IsHigh(c)
    ensures Escape(c, true) == UnicodeEscape(c)
  {
    EscapeShape(c);
  }

  lemma ReadHigh(s: Text, tail: string)
    requires s != [] && tail != "" && tail[0] == '"' && IsHigh(s[0])
    ensures ReadChar(Escape(s[0], true) + (EscapeText(s[1..], true) + tail)) ==
      if |s| >= 2 && IsLow(s[1]) then Some((Combine(s[0], s[1]), EscapeText(s[2..], true) + tail))
      else Some((s[0], EscapeText(s[1..], true) + tail))
  {
    var c, more := s[0], EscapeText(s[1..], true) + tail;
    HighEscape(c);
    UnitAhead(s[1..], tail);
    hide Escape, UnicodeEscape, ReadUnit, ReadChar, Combine, EscapeText;
    ReadEscapedUnit(c, more);
    if |s| >= 2 && IsLow(s[1]) {
      assert s[1..][1..] == s[2..];
      ReadPair(c, s[1], Escape(c, true) + more, more, EscapeText(s[2..], true) + tail);
    } else {
      ReadLone(c, Escape(c, true) + more, more);
    }
  }

  lemma {:induction false} ReadText(s: Text, rest: string)
    ensures ParseText(EscapeText(s, true) + ("\"" + rest)) == Some((Merge(s), rest))
    decreases |s|
  {
    hide Escape, ReadChar, Combine;
    var tail := "\"" + rest;
    if s == [] {
      assert "" + tail == tail && tail[1..] == rest;
    } else {
      EscapeStart(s[0]);
      var all := EscapeText(s, true) + tail;
      assert all[0] == Escape(s[0], true)[0];
      ReadNext(s, tail);
      if |s| >= 2 && IsHigh(s[0]) && IsLow(s[1]) {
        ReadText(s[2..], rest);
      } else {
        ReadText(s[1..], rest);
      }
    }
  }

  // ---------------------------------------------------------------- reading values back

  lemma {:induction false} NoLeadingZero(n: nat)
    ensures n > 0 ==> PrintNat(n)[0] != '0'
    ensures n == 0 ==> PrintNat(n) == "0"
  {
    if n >= 10 {
      NoLeadingZero(n / 10);
    }
  }

  /** The digits of a number are all that the reader takes, and their first is no digit too many. */
  lemma ReadDigits(n: nat, rest: string)
    requires EndsNumber(rest)
    ensures SpanDigits(PrintNat(n) + rest) == (PrintNat(n), rest) && NatOf(PrintNat(n)) == n
    ensures PrintNat(n) != "" && IsDigit(PrintNat(n)[0]) && (PrintNat(n)[0] == '0' ==> |PrintNat(n)| == 1)
  {
    NoLeadingZero(n);
    hide NatOf, SpanDigits;
    SpanDigitsOf(PrintNat(n), rest);
  }

  lemma FirstAndRest(c: char, s: string)
    ensures ([c] + s)[0] == c && ([c] + s)[1..] == s
  {
  }

  /** Digits as they are read, alone and after a sign. */
  lemma ParseDigits(digits: string, rest: string)
    requires SpanDigits(digits + rest) == (digits, rest) && EndsNumber(rest)
    requires digits != "" && IsDigit(digits[0]) && (digits[0] == '0' ==> |digits| == 1)
    ensures ParseNumber(digits + rest) == Some((NatOf(digits), rest))
    ensures ParseNumber("-" + (digits + rest)) == Some((-(NatOf(digits) as int), rest))
  {
    hide NatOf, SpanDigits, EndsNumber;
    var s := digits + rest;
    assert s[0] == digits[0];
    ParseUnsigned(s, digits, rest);
    FirstAndRest('-', s);
    ParseSigned("-" + s, s, digits, rest);
  }

  lemma ParseUnsigned(s: string, digits: string, rest: string)
    requires s != "" && s[0] != '-' && SpanDigits(s) == (digits, rest) && EndsNumber(rest)
    requires digits != "" && (digits[0] == '0' ==> |digits| == 1)
    ensures ParseNumber(s) == Some((NatOf(digits), rest))
  {
    hide NatOf, SpanDigits, EndsNumber;
  }

  lemma ParseSigned(s: string, body: string, digits: string, rest: string)
    requires s != "" && s[0] == '-' && s[1..] == body && SpanDigits(body) == (digits, rest) && EndsNumber(rest)
    requires digits != "" && (digits[0] == '0' ==> |digits| == 1)
    ensures ParseNumber(s) == Some((-(NatOf(digits) as int), rest))
  {
    hide NatOf, SpanDigits, EndsNumber;
  }

  lemma ReadInt(i: int, rest: string)
    requires EndsNumber(rest)
    ensures ParseNumber(PrintInt(i) + rest) == Some((i, rest))
  {
    hide PrintNat, NatOf, SpanDigits, ParseNumber, EndsNumber;
    var n := if i < 0 then -i else i;
    ReadDigits(n, rest);
    ParseDigits(PrintNat(n), rest);
    Assoc("-", PrintNat(n), rest);
  }

  predicate StartsValue(c: char) {
    c == '"' || c == '[' || c == '{' || c == 'n' || c == 't' || c == 'f' || c == '-' || IsDigit(c)
  }

  lemma DumpStart(v: Json)
    ensures Dumps(v, true) != "" && StartsValue(Dumps(v, true)[0])
  {
    match v
    case Int(i) => assert i >= 0 ==> IsDigit(PrintNat(i)[0]);
    case _ =>
  }

  lemma ItemsStart(items: seq<Json>, tail: string)
    requires items != []
    ensures var s := DumpItems(items, true) + tail; s != "" && StartsValue(s[0])
  {
    DumpStart(items[0]);
  }

  lemma SkipOneSpace(s: string)
    ensures SkipSpace(" " + s) == SkipSpace(s)
  {
    assert (" " + s)[1..] == s;
  }

  /** The parser's view of a text that starts with a value: nothing is skipped. */
  lemma NoSpaceAhead(s: string)
    requires s != "" && StartsValue(s[0])
    ensures SkipSpace(s) == s
  {
  }

  lemma {:induction false} ReadValue(v: Json, rest: string)
    requires EndsNumber(rest)
    ensures ParseValue(Dumps(v, true) + rest) == Some((Merged(v), rest))
    decreases v, 1
  {
    match v
    case Str(t) => ReadStr(t, rest);
    case Arr(items) =>
      if items == [] {
        ReadEmpty(rest);
      } else {
        ReadItems(items, rest);
        WrapItems(items, rest);
      }
    case Obj(members) =>
      if members == [] {
        ReadEmpty(rest);
      } else {
        ReadMembers(members, rest);
        WrapMembers(members, rest);
      }
    case _ => ReadScalar(v, rest);
  }

  lemma ReadScalar(v: Json, rest: string)
    requires (v.Null? || v.Bool? || v.Int?) && EndsNumber(rest)
    ensures ParseValue(Dumps(v, true) + rest) == Some((v, rest))
  {
    hide PrintInt, ParseNumber, ParseItems, ParseMembers, ParseText;
    var s := Dumps(v, true) + rest;
    DumpStart(v);
    NoSpaceAhead(s);
    match v
    case Null => assert s[4..] == rest;
    case Bool(b) => assert s[if b then 4 else 5..] == rest;
    case Int(i) =>
      ReadInt(i, rest);
      IntStart(i);
      assert s[0] == PrintInt(i)[0];
  }

  lemma ReadStr(t: Text, rest: string)
    ensures ParseValue(DumpText(t, true) + rest) == Some((Str(Merge(t)), rest))
  {
    hide EscapeText, Merge, ParseText, ParseItems, ParseMembers, ParseNumber;
    var s := DumpText(t, true) + rest;
    assert SkipSpace(s) == s;
    assert s[1..] == EscapeText(t, true) + ("\"" + rest);
    ReadText(t, rest);
  }

  lemma ReadEmpty(rest: string)
    ensures ParseValue("[]" + rest) == Some((Arr([]), rest))
    ensures ParseValue("{}" + rest) == Some((Obj([]), rest))
  {
    hide ParseText, ParseItems, ParseMembers, ParseNumber;
    var s, t := "[]" + rest, "{}" + rest;
    assert SkipSpace(s) == s && s[1..] == "]" + rest && SkipSpace(s[1..]) == s[1..] && s[1..][1..] == rest;
    assert SkipSpace(t) == t && t[1..] == "}" + rest && SkipSpace(t[1..]) == t[1..] && t[1..][1..] == rest;
  }

  lemma Wrap(inside: string)
    requires inside != "" && StartsValue(inside[0])
    ensures ParseItems(inside).Some? ==>
      ParseValue("[" + inside) == Some((Arr(ParseItems(inside).value.0), ParseItems(inside).value.1))
    ensures ParseMembers(inside).Some? ==>
      ParseValue("{" + inside) == Some((Obj(ParseMembers(inside).value.0), ParseMembers(inside).value.1))
  {
    hide ParseText, ParseItems, ParseMembers, ParseNumber, Drop;
    NoSpaceAhead(inside);
    var s, t := "[" + inside, "{" + inside;
    assert SkipSpace(s) == s && s[1..] == inside && SkipSpace(t) == t && t[1..] == inside;
  }

  lemma WrapItems(items: seq<Json>, rest: string)
    requires items != [] && ParseItems(DumpItems(items, true) + ("]" + rest)) == Some((MergedItems(items), rest))
    ensures ParseValue("[" + DumpItems(items, true) + "]" + rest) == Some((Arr(MergedItems(items)), rest))
  {
    ItemsStart(items, "]" + rest);
    hide DumpItems, MergedItems, ParseItems, ParseMembers, ParseValue;
    var inside := DumpItems(items, true) + ("]" + rest);
    Wrap(inside);
    Assoc("[" + DumpItems(items, true), "]", rest);
    Assoc("[", DumpItems(items, true), "]" + rest);
  }

  lemma WrapMembers(members: seq<Member>, rest: string)
    requires members != [] && ParseMembers(DumpMembers(members, true) + ("}" + rest)) == Some((MergedMembers(members), rest))
    ensures ParseValue("{" + DumpMembers(members, true) + "}" + rest) == Some((Obj(MergedMembers(members)), rest))
  {
    MembersStart(members, "}" + rest);
    hide DumpMembers, MergedMembers, ParseItems, ParseMembers, ParseValue;
    var inside := DumpMembers(members, true) + ("}" + rest);
    Wrap(inside);
    Assoc("{" + DumpMembers(members, true), "}", rest);
    Assoc("{", DumpMembers(members, true), "}" + rest);
  }

  lemma IntStart(i: int)
    ensures PrintInt(i) != "" && (PrintInt(i)[0] == '-' || IsDigit(PrintInt(i)[0]))
  {
    assert i >= 0 ==> IsDigit(PrintNat(i)[0]);
  }

  lemma MembersStart(members: seq<Member>, tail: string)
    requires members != []
    ensures var s := DumpMembers(members, true) + tail; s != "" && s[0] == '"'
  {
  }

  lemma {:induction false} ReadItems(items: seq<Json>, rest: string)
    requires items != []
    ensures ParseItems(DumpItems(items, true) + ("]" + rest)) == Some((MergedItems(items), rest))
    decreases items, 0
  {
    hide Dumps, Merged, ParseValue;
    var s := DumpItems(items, true) + ("]" + rest);
    if |items| == 1 {
      assert MergedItems(items) == [Merged(items[0])];
      assert s == Dumps(items[0], true) + ("]" + rest);
      ReadValue(items[0], "]" + rest);
      assert ("]" + rest)[1..] == rest;
    } else {
      var more := DumpItems(items[1..], true) + ("]" + rest);
      assert s == Dumps(items[0], true) + (", " + more);
      ReadValue(items[0], ", " + more);
      assert (", " + more)[1..] == " " + more;
      ReadItems(items[1..], rest);
      SpaceBeforeItems(more);
    }
  }

  lemma SpaceBeforeItems(s: string)
    ensures ParseItems(" " + s) == ParseItems(s)
  {
    hide ParseText, ParseNumber;
    SkipOneSpace(s);
    assert ParseValue(" " + s) == ParseValue(s);
  }

  lemma SpaceBeforeMembers(s: string)
    ensures ParseMembers(" " + s) == ParseMembers(s)
  {
    SkipOneSpace(s);
  }

  /** One member, and then the end or a comma. */
  lemma ReadMember(key: Text, v: Json, s: string, value: string, end: string)
    requires s != "" && s[0] == '"' && ParseText(s[1..]) == Some((key, ": " + value))
    requires ParseValue(" " + value) == Some((v, end))
    ensures end != "" && end[0] == '}' ==> ParseMembers(s) == Some(([Member(key, v)], end[1..]))
    ensures end != "" && end[0] == ',' && ParseMembers(end[1..]).Some? ==>
      ParseMembers(s) == Some(([Member(key, v)] + ParseMembers(end[1..]).value.0, ParseMembers(end[1..]).value.1))
  {
    hide ParseText, ParseValue;
    assert SkipSpace(s) == s;
    assert SkipSpace(": " + value) == ": " + value && (": " + value)[1..] == " " + value;
    assert end != "" && end[0] == '}' ==> SkipSpace(end) == end;
    assert end != "" && end[0] == ',' ==> SkipSpace(end) == end;
  }

  lemma Regroup(quote: string, key: string, colon: string, v: string, more: string, close: string)
    ensures ((((quote + key) + quote) + colon) + v + more) + close == quote + (key + (quote + (colon + (v + (more + close)))))
  {
    var a, b := (quote + key) + quote, ((quote + key) + quote) + colon;
    Assoc(b + v, more, close);
    Assoc(b, v, more + close);
    Assoc(a, colon, v + (more + close));
    Assoc(quote + key, quote, colon + (v + (more + close)));
    Assoc(quote, key, quote + (colon + (v + (more + close))));
  }

  /** The text of the first member, and what comes after its value. */
  lemma FirstMember(members: seq<Member>, rest: string)
    requires members != []
    ensures var s := DumpMembers(members, true) + ("}" + rest);
      var end := if |members| == 1 then "}" + rest else ", " + (DumpMembers(members[1..], true) + ("}" + rest));
      s != "" && s[0] == '"'
      && s[1..] == EscapeText(members[0].key, true) + ("\"" + (": " + (Dumps(members[0].value, true) + end)))
  {
    var key, v := EscapeText(members[0].key, true), Dumps(members[0].value, true);
    var more := if |members| == 1 then "" else ", " + DumpMembers(members[1..], true);
    assert DumpMembers(members, true) == ((("\"" + key) + "\"") + ": ") + v + more;
    hide Dumps, EscapeText, DumpMembers;
    Regroup("\"", key, ": ", v, more, "}" + rest);
    if |members| == 1 {
      NothingBefore("}" + rest);
    } else {
      Assoc(", ", DumpMembers(members[1..], true), "}" + rest);
    }
    FirstAndRest('"', key + ("\"" + (": " + (v + (more + ("}" + rest))))));
  }

  lemma NothingBefore(s: string)
    ensures "" + s == s
  {
  }

  lemma MergedMembersUnfold(members: seq<Member>)
    requires members != []
    ensures MergedMembers(members) ==
      [Member(Merge(members[0].key), Merged(members[0].value))] + if |members| == 1 then [] else MergedMembers(members[1..])
  {
    hide Merge, Merged;
  }

  lemma {:induction false} ReadMembers(members: seq<Member>, rest: string)
    requires members != []
    ensures ParseMembers(DumpMembers(members, true) + ("}" + rest)) == Some((MergedMembers(members), rest))
    decreases members, 0
  {
    FirstMember(members, rest);
    MergedMembersUnfold(members);
    hide Dumps, Merged, MergedMembers, DumpMembers, ParseValue, EscapeText, ParseText, ParseMembers, Merge;
    var m := members[0];
    var s := DumpMembers(members, true) + ("}" + rest);
    var end := if |members| == 1 then "}" + rest else ", " + (DumpMembers(members[1..], true) + ("}" + rest));
    var value := Dumps(m.value, true) + end;
    ReadText(m.key, ": " + value);
    SpaceBeforeValue(value);
    ReadValue(m.value, end);
    ReadMember(Merge(m.key), Merged(m.value), s, value, end);
    if |members| == 1 {
      FirstAndRest('}', rest);
      assert end == ['}'] + rest;
      assert end[0] == '}';
      assert [Member(Merge(m.key), Merged(m.value))] + [] == [Member(Merge(m.key), Merged(m.value))];
    } else {
      var more := DumpMembers(members[1..], true) + ("}" + rest);
      CommaSpace(more);
      ReadMembers(members[1..], rest);
      SpaceBeforeMembers(more);
    }
  }

  lemma CommaSpace(s: string)
    ensures (", " + s)[0] == ',' && (", " + s)[1..] == " " + s
  {
  }

  lemma SpaceBeforeValue(s: string)
    ensures ParseValue(" " + s) == ParseValue(s)
  {
    hide ParseText, ParseNumber;
    SkipOneSpace(s);
  }

  // ---------------------------------------------------------------- the three replacements

  /** What the three replacements together make of one character. */
  function GuardChar(c: char): string {
    if c == '<' then UnicodeEscape(0x3c)
    else if c == '>' then UnicodeEscape(0x3e)
    else if c == '&' then UnicodeEscape(0x26)
    else [c]
  }

  lemma {:induction false} ReplaceAppend(a: string, b: string, c: char, substitute: string)
    ensures Replace(a + b, c, substitute) == Replace(a, c, substitute) + Replace(b, c, substitute)
  {
    if a == "" {
      assert a + b == b;
    } else {
      assert (a + b)[1..] == a[1..] + b;
      ReplaceAppend(a[1..], b, c, substitute);
    }
  }

  lemma {:induction false} ReplaceAbsent(s: string, c: char, substitute: string)
    requires c !in s
    ensures Replace(s, c, substitute) == s
  {
    if s != "" {
      assert s[0] in s && c !in s[1..];
      ReplaceAbsent(s[1..], c, substitute);
    }
  }

  lemma EscapeIsUnmarked(n: nat)
    requires n < 0x10000
    ensures forall c :: c in UnicodeEscape(n) ==> !IsMarkup(c) && ' ' <= c <= '~'
  {
    var e := UnicodeEscape(n);
    forall i | 0 <= i < 6 ensures !IsMarkup(e[i]) && ' ' <= e[i] <= '~' {
    }
  }

  lemma GuardOne(c: char)
    ensures Guard([c]) == GuardChar(c)
  {
    EscapeIsUnmarked(0x3c);
    EscapeIsUnmarked(0x3e);
    EscapeIsUnmarked(0x26);
    hide UnicodeEscape;
    var lt, gt, amp := UnicodeEscape(0x3c), UnicodeEscape(0x3e), UnicodeEscape(0x26);
    assert Replace([c], '<', lt) == if c == '<' then lt else [c];
    assert Replace([c], '>', gt) == if c == '>' then gt else [c];
    assert Replace([c], '&', amp) == if c == '&' then amp else [c];
    ReplaceAbsent(lt, '>', gt);
    ReplaceAbsent(lt, '&', amp);
    ReplaceAbsent(gt, '&', amp);
  }

  lemma GuardAppend(a: string, b: string)
    ensures Guard(a + b) == Guard(a) + Guard(b)
  {
    var lt, gt, amp := UnicodeEscape(0x3c), UnicodeEscape(0x3e), UnicodeEscape(0x26);
    ReplaceAppend(a, b, '<', lt);
    var a1, b1 := Replace(a, '<', lt), Replace(b, '<', lt);
    ReplaceAppend(a1, b1, '>', gt);
    ReplaceAppend(Replace(a1, '>', gt), Replace(b1, '>', gt), '&', amp);
  }

  /** Text without '<', '>' and '&' is left alone. */
  lemma GuardPlain(s: string)
    requires forall c :: c in s ==> !IsMarkup(c)
    ensures Guard(s) == s
  {
    ReplaceAbsent(s, '<', UnicodeEscape(0x3c));
    ReplaceAbsent(s, '>', UnicodeEscape(0x3e));
    ReplaceAbsent(s, '&', UnicodeEscape(0x26));
  }

  lemma {:induction false} GuardText(s: Text)
    ensures Guard(EscapeText(s, false)) == EscapeText(s, true)
  {
    if s == [] {
      GuardPlain("");
    } else {
      GuardEscape(s[0]);
      GuardText(s[1..]);
      hide Guard, Escape;
      GuardAppend(Escape(s[0], false), EscapeText(s[1..], false));
    }
  }

  lemma GuardEscape(c: CodePoint)
    ensures Guard(Escape(c, false)) == Escape(c, true)
  {
    hide Guard, UnicodeEscape;
    var e := EscapeChar(c);
    if 32 <= c <= 126 && c != 34 && c != 92 {
      GuardOne(c as char);
    } else {
      if 0x10000 <= c {
        EscapeIsUnmarked(HighOf(c));
        EscapeIsUnmarked(LowOf(c));
      } else {
        EscapeIsUnmarked(c);
      }
      GuardPlain(e);
    }
  }

  lemma GuardAround(open: string, s: string, close: string)
    requires forall c :: c in open + close ==> !IsMarkup(c)
    ensures Guard(open + s + close) == open + Guard(s) + close
  {
    hide Guard;
    assert forall c :: c in open || c in close ==> c in open + close;
    GuardAppend(open + s, close);
    GuardAppend(open, s);
    GuardPlain(open);
    GuardPlain(close);
  }

  lemma GuardDumpText(s: Text)
    ensures Guard(DumpText(s, false)) == DumpText(s, true)
  {
    hide Guard;
    GuardText(s);
    GuardAround("\"", EscapeText(s, false), "\"");
  }

  lemma DigitsAreUnmarked(s: string)
    requires AllDigits(s)
    ensures forall c :: c in s ==> !IsMarkup(c) && ' ' <= c <= '~'
  {
  }

  /** The replacements made on the finished text are the replacements made inside its strings: the text has
      no '<', '>' or '&' anywhere else. */
  lemma {:induction false} GuardDumps(v: Json)
    ensures Guard(Dumps(v, false)) == Dumps(v, true)
    decreases v, 1
  {
    hide Guard;
    match v
    case Int(i) =>
      DigitsAreUnmarked(PrintNat(if i < 0 then -i else i));
      GuardPlain(Dumps(v, false));
    case Str(t) => GuardDumpText(t);
    case Arr(items) =>
      if items == [] {
        GuardPlain("[]");
      } else {
        GuardItems(items);
        GuardAround("[", DumpItems(items, false), "]");
      }
    case Obj(members) =>
      if members == [] {
        GuardPlain("{}");
      } else {
        GuardMembers(members);
        GuardAround("{", DumpMembers(members, false), "}");
      }
    case _ => GuardPlain(Dumps(v, false));
  }

  lemma {:induction false} GuardItems(items: seq<Json>)
    requires items != []
    ensures Guard(DumpItems(items, false)) == DumpItems(items, true)
    decreases items, 0
  {
    hide Guard, Dumps;
    GuardDumps(items[0]);
    var d := Dumps(items[0], false);
    if |items| == 1 {
      assert DumpItems(items, false) == d && DumpItems(items, true) == Dumps(items[0], true);
    } else {
      GuardItems(items[1..]);
      var more := DumpItems(items[1..], false);
      GuardAppend(d, ", " + more);
      GuardAppend(", ", more);
      GuardPlain(", ");
    }
  }

  lemma {:induction false} GuardMembers(members: seq<Member>)
    requires members != []
    ensures Guard(DumpMembers(members, false)) == DumpMembers(members, true)
    decreases members, 0
  {
    hide Guard, Dumps, DumpText;
    var m := members[0];
    GuardDumpText(m.key);
    GuardDumps(m.value);
    var head := DumpText(m.key, false) + ": " + Dumps(m.value, false);
    GuardAppend(DumpText(m.key, false) + ": ", Dumps(m.value, false));
    GuardAppend(DumpText(m.key, false), ": ");
    GuardPlain(": ");
    if |members| == 1 {
      assert DumpMembers(members, false) == head;
    } else {
      GuardMembers(members[1..]);
      var more := DumpMembers(members[1..], false);
      GuardAppend(head, ", " + more);
      GuardAppend(", ", more);
      GuardPlain(", ");
    }
  }

  // ---------------------------------------------------------------- main results

  predicate Harmless(s: string) {
    forall c :: c in s ==> !IsMarkup(c) && ' ' <= c <= '~'
  }

  lemma {:induction false} EscapeTextIsHarmless(s: Text)
    ensures Harmless(EscapeText(s, true))
  {
    hide UnicodeEscape;
    if s != [] {
      var c := s[0];
      if c >= 0x10000 {
        EscapeIsUnmarked(HighOf(c));
        EscapeIsUnmarked(LowOf(c));
      } else {
        EscapeIsUnmarked(c);
      }
      assert Harmless(Escape(c, true));
      EscapeTextIsHarmless(s[1..]);
    }
  }

  lemma {:induction false} DumpsIsHarmless(v: Json)
    ensures Harmless(Dumps(v, true))
    decreases v, 1
  {
    hide EscapeText;
    match v
    case Int(i) => DigitsAreUnmarked(PrintNat(if i < 0 then -i else i));
    case Str(t) => EscapeTextIsHarmless(t);
    case Arr(items) =>
      if items != [] {
        ItemsAreHarmless(items);
      }
    case Obj(members) =>
      if members != [] {
        MembersAreHarmless(members);
      }
    case _ =>
  }

  lemma {:induction false} ItemsAreHarmless(items: seq<Json>)
    requires items != []
    ensures Harmless(DumpItems(items, true))
    decreases items, 0
  {
    hide Dumps;
    DumpsIsHarmless(items[0]);
    if |items| > 1 {
      ItemsAreHarmless(items[1..]);
    }
  }

  lemma {:induction false} MembersAreHarmless(members: seq<Member>)
    requires members != []
    ensures Harmless(DumpMembers(members, true))
    decreases members, 0
  {
    hide Dumps, EscapeText;
    EscapeTextIsHarmless(members[0].key);
    DumpsIsHarmless(members[0].value);
    if |members| > 1 {
      MembersAreHarmless(members[1..]);
    }
  }

  /** Nothing in the payload can end the script element: it is printable ASCII without '<', '>' and '&'. */
  lemma PayloadIsHarmless(graph: seq<Json>)
    ensures Harmless(EncodeJsonldGraph(graph))
  {
    GuardDumps(Payload(graph));
    DumpsIsHarmless(Payload(graph));
  }

  /** What the parser above reads back: the graph, with split surrogate pairs merged. */
  lemma PayloadReadsBack(graph: seq<Json>)
    ensures ParseDocument(EncodeJsonldGraph(graph)) == Some(Merged(Payload(graph)))
  {
    hide Guard, Dumps, ParseValue, Merged;
    GuardDumps(Payload(graph));
    var s := Dumps(Payload(graph), true);
    ReadValue(Payload(graph), "");
    assert s + "" == s;
  }

  /** The escaping keeps the graph's meaning exactly when no string of it holds a high surrogate right before a
      low one; text that came out of UTF-8 never does. */
  lemma {:induction false} PayloadIsFaithful(graph: seq<Json>)
    ensures ParseDocument(EncodeJsonldGraph(graph)) == Some(Payload(graph)) <==> UnsplitItems(graph)
  {
    PayloadReadsBack(graph);
    MergedIffUnsplit(Payload(graph));
    hide EncodeJsonldGraph, ParseDocument, Merged, UnsplitItems;
    PayloadIsUnsplit(graph);
  }

  const CONTEXT := Member(CONTEXT_KEY, Str(SCHEMA_ORG))

  lemma ContextIsPlain()
    ensures NoSplitPair(CONTEXT.key) && Unsplit(CONTEXT.value) && NoSplitPair(GRAPH_KEY)
    ensures Merge(CONTEXT.key) == CONTEXT.key && Merged(CONTEXT.value) == CONTEXT.value && Merge(GRAPH_KEY) == GRAPH_KEY
  {
    hide Ascii, Merge, NoSplitPair;
    var context, schema, graph := CONTEXT_KEY, SCHEMA_ORG, GRAPH_KEY;
    ScalarTextIsUnsplit(context);
    ScalarTextIsUnsplit(schema);
    ScalarTextIsUnsplit(graph);
    assert Unsplit(Str(schema)) && Merged(Str(schema)) == Str(schema);
  }

  lemma PayloadMembers(graph: seq<Json>) returns (members: seq<Member>)
    ensures Payload(graph) == Obj(members) && |members| == 2 && members[0] == CONTEXT
    ensures members[1..] == [Member(GRAPH_KEY, Arr(graph))] && members[1..][1..] == []
  {
    members := [CONTEXT, Member(GRAPH_KEY, Arr(graph))];
  }

  lemma PayloadIsUnsplit(graph: seq<Json>)
    ensures Unsplit(Payload(graph)) <==> UnsplitItems(graph)
  {
    ContextIsPlain();
    var members := PayloadMembers(graph);
    hide NoSplitPair, Payload, CONTEXT;
    assert UnsplitMembers(members[1..]) <==> Unsplit(Arr(graph));
  }

  /** Scalar values only, as text decoded from UTF-8 has: then every string is free of split pairs. */
  lemma ScalarTextIsUnsplit(s: Text)
    requires forall i :: 0 <= i < |s| ==> !IsHigh(s[i]) && !IsLow(s[i])
    ensures NoSplitPair(s) && Merge(s) == s
  {
    MergeShape(s);
  }

  /** The one way to lose: the two halves of an astral character as two characters of the string come back
      as the one character they encode. */
  lemma {:induction false} SplitPairIsMerged()
    ensures ParseDocument(EncodeJsonldGraph([Str([0xd83d, 0xde00])])) == Some(Payload([Str([0x1f600])]))
  {
    PayloadReadsBack([Str([0xd83d, 0xde00])]);
    hide EncodeJsonldGraph, ParseDocument;
    var pair: Text := [0xd83d, 0xde00];
    assert pair[2..] == [];
    assert Merge(pair) == [0x1f600];
    assert MergedItems([Str(pair)]) == [Merged(Str(pair))];
    MergeKeys([Str(pair)]);
  }

  lemma MergeKeys(graph: seq<Json>)
    ensures Merged(Payload(graph)) == Payload(MergedItems(graph))
  {
    ContextIsPlain();
    var members := PayloadMembers(graph);
    var after := PayloadMembers(MergedItems(graph));
    hide Merge, Payload, CONTEXT;
    assert MergedMembers(members[1..]) == after[1..];
    assert MergedMembers(members) == [members[0]] + after[1..] == after;
  }
}
