/** Passes over the bytes of a record: the scan for unpaired UTF-16 surrogate
    escapes, and the removal of white space. Bytes are written as characters. */
module JsonText {
  import opened Options

  const QUOTE := '"'
  const BACKSLASH := '\\'

  // ----- Four hexadecimal digits

  predicate IsHex(c: char) { '0' <= c <= '9' || 'a' <= c <= 'f' || 'A' <= c <= 'F' }

  function Digit(c: char): (d: nat)
    requires IsHex(c)
    ensures d < 16
  {
    if '0' <= c <= '9' then (c - '0') as nat
    else if 'a' <= c <= 'f' then (c - 'a') as nat + 10
    else (c - 'A') as nat + 10
  }

  /** The number that the first four bytes of `s` spell. */
  function HexQuad(s: seq<char>): (r: Option<nat>)
    ensures r.Some? ==> r.value < 0x1_0000
  {
    if |s| >= 4 && IsHex(s[0]) && IsHex(s[1]) && IsHex(s[2]) && IsHex(s[3])
    then Some(0x1000 * Digit(s[0]) + 0x100 * Digit(s[1]) + 0x10 * Digit(s[2]) + Digit(s[3]))
    else None
  }

  ghost function Prefix(s: seq<char>, k: nat): (r: nat)
    requires k <= |s| && k <= 4 && forall i :: 0 <= i < k ==> IsHex(s[i])
    ensures r < [1, 0x10, 0x100, 0x1000, 0x1_0000][k]
  {
    if k == 0 then 0 else 0x10 * Prefix(s, k - 1) + Digit(s[k - 1])
  }

  lemma PrefixIsQuad(s: seq<char>)
    requires HexQuad(s).Some?
    ensures Prefix(s, 4) == HexQuad(s).value
  {
    assert Prefix(s, 1) == Digit(s[0]);
    assert Prefix(s, 2) == 0x10 * Digit(s[0]) + Digit(s[1]);
    assert Prefix(s, 3) == 0x100 * Digit(s[0]) + 0x10 * Digit(s[1]) + Digit(s[2]);
  }

  /** One turn of the loop of `decodeHexQuad`, in 16-bit arithmetic. */
  method ShiftIn(value: nat, digit: char) returns (r: nat, ok: bool)
    requires value < 0x1000
    ensures ok <==> IsHex(digit)
    ensures ok ==> r == 0x10 * value + Digit(digit)
  {
    r := value * 0x10 % 0x1_0000;
    assert r == 0x10 * value <= 0xfff0;
    ok := true;
    var add := 0;
    if '0' <= digit <= '9' {
      add := (digit - '0') as nat;
    } else if 'a' <= digit <= 'f' {
      add := (digit - 'a') as nat + 10;
    } else if 'A' <= digit <= 'F' {
      add := (digit - 'A') as nat + 10;
    } else {
      return r, false;
    }
    assert add == Digit(digit) < 0x10;
    r := (r + add) % 0x1_0000;
  }

  /** `decodeHexQuad`: the 16-bit shifts and sums lose nothing. */
  method DecodeHexQuad(data: seq<char>, offset: nat) returns (value: nat, ok: bool)
    ensures ok <==> offset + 4 <= |data| && HexQuad(data[offset..]).Some?
    ensures ok ==> value == HexQuad(data[offset..]).value
    ensures !ok ==> value == 0
  {
    hide IsHex, Digit;
    if offset + 4 > |data| {
      return 0, false;
    }
    ghost var s := data[offset..];
    value, ok := 0, true;
    for i := 0 to 4
      invariant forall k :: 0 <= k < i ==> IsHex(s[k])
      invariant value == Prefix(s, i) && ok
    {
      assert data[offset + i] == s[i];
      value, ok := ShiftIn(value, data[offset + i]);
      if !ok {
        return 0, false;
      }
    }
    PrefixIsQuad(s);
  }

  // ----- The scan, as a function of the bytes that are left

  predicate HighSurrogate(code: nat) { 0xd800 <= code <= 0xdbff }
  predicate LowSurrogate(code: nat) { 0xdc00 <= code <= 0xdfff }

  /** How far to move past the escape at the start of `s`, or `None` if it is
      an unpaired surrogate. */
  function EscapeWidth(s: seq<char>): (r: Option<nat>)
    requires |s| >= 2
    ensures r.Some? ==> 2 <= r.value <= |s|
  {
    var code := HexQuad(s[2..]);
    if code.None? then Some(2)
    else if LowSurrogate(code.value) then None
    else if !HighSurrogate(code.value) then Some(6)
    else if |s| < 12 || s[6] != BACKSLASH || s[7] != 'u' then None
    else
      var low := HexQuad(s[8..]);
      if low.None? || !LowSurrogate(low.value) then None else Some(12)
  }

  function Unpaired(s: seq<char>, inString: bool): bool {
    if s == [] then false
    else if !inString then Unpaired(s[1..], s[0] == QUOTE)
    else if s[0] == QUOTE then Unpaired(s[1..], false)
    else if s[0] != BACKSLASH || |s| == 1 then Unpaired(s[1..], true)
    else if s[1] != 'u' then Unpaired(s[2..], true)
    else if EscapeWidth(s).None? then true
    else Unpaired(s[EscapeWidth(s).value..], true)
  }

  method SurrogateEscapeWidth(data: seq<char>, index: nat) returns (width: nat, invalid: bool)
    requires index + 2 <= |data|
    ensures invalid <==> EscapeWidth(data[index..]).None?
    ensures !invalid ==> width == EscapeWidth(data[index..]).value
  {
    ghost var s := data[index..];
    assert s[2..] == data[index + 2..];
    var code, ok := DecodeHexQuad(data, index + 2);
    if !ok {
      return 2, false;
    }
    if code >= 0xdc00 && code <= 0xdfff {
      return 0, true;
    }
    if code < 0xd800 || code > 0xdbff {
      return 6, false;
    }
    if index + 12 > |data| || data[index + 6] != BACKSLASH || data[index + 6 + 1] != 'u' {
      return 0, true;
    }
    assert s[8..] == data[index + 8..];
    var low, lowOK := DecodeHexQuad(data, index + 8);
    if !lowOK || low < 0xdc00 || low > 0xdfff {
      return 0, true;
    }
    return 12, false;
  }

  /** The scan skips over escapes by index; every index it reads is in bounds. */
  method HasUnpairedSurrogateEscape(data: seq<char>) returns (r: bool)
    ensures r == Unpaired(data, false)
  {
    var inString := false;
    var index := 0;
    assert data[0..] == data;
    while index < |data|
      invariant 0 <= index <= |data|
      invariant Unpaired(data[index..], inString) == Unpaired(data, false)
    {
      var value := data[index];
      ghost var s := data[index..];
      assert s[1..] == data[index + 1..];
      if !inString {
        inString := value == QUOTE;
        index := index + 1;
        continue;
      }
      if value == QUOTE {
        inString := false;
        index := index + 1;
        continue;
      }
      if value != BACKSLASH || index + 1 >= |data| {
        index := index + 1;
        continue;
      }
      assert s[2..] == data[index + 2..];
      if data[index + 1] != 'u' {
        index := index + 2;
        continue;
      }
      var width, invalid := SurrogateEscapeWidth(data, index);
      if invalid {
        return true;
      }
      assert s[width..] == data[index + width..];
      index := index + width;
    }
    r := false;
  }

  // ----- The grammar

  /** An element of a string (section 7 of RFC 8259). */
  datatype Elem =
    | Plain(c: char)
    | Escape(c: char)            // a backslash and one more byte
    | Unicode(digits: seq<char>) // `\u` and four digits

  /** A byte outside strings, or a string. */
  datatype Piece = Outside(c: char) | Str(elems: seq<Elem>)

  ghost predicate GoodElem(e: Elem) {
    match e
    case Plain(c) => c != QUOTE && c != BACKSLASH
    case Escape(c) => c != 'u'
    case Unicode(digits) => |digits| == 4 && HexQuad(digits).Some?
  }

  ghost predicate GoodPiece(p: Piece) {
    match p
    case Outside(c) => c != QUOTE
    case Str(elems) => forall i :: 0 <= i < |elems| ==> GoodElem(elems[i])
  }

  ghost predicate GoodText(text: seq<Piece>) {
    forall i :: 0 <= i < |text| ==> GoodPiece(text[i])
  }

  ghost function PrintElem(e: Elem): seq<char> {
    match e
    case Plain(c) => [c]
    case Escape(c) => [BACKSLASH, c]
    case Unicode(digits) => [BACKSLASH, 'u'] + digits
  }

  ghost function PrintElems(elems: seq<Elem>): seq<char> {
    if elems == [] then [] else PrintElem(elems[0]) + PrintElems(elems[1..])
  }

  ghost function PrintPiece(p: Piece): seq<char> {
    match p
    case Outside(c) => [c]
    case Str(elems) => [QUOTE] + PrintElems(elems) + [QUOTE]
  }

  ghost function Print(text: seq<Piece>): seq<char> {
    if text == [] then [] else PrintPiece(text[0]) + Print(text[1..])
  }

  ghost predicate IsHigh(e: Elem) { e.Unicode? && HexQuad(e.digits).Some? && HighSurrogate(HexQuad(e.digits).value) }
  ghost predicate IsLow(e: Elem) { e.Unicode? && HexQuad(e.digits).Some? && LowSurrogate(HexQuad(e.digits).value) }

  /** Element `i` is a surrogate escape without its other half beside it. */
  ghost predicate Lonely(elems: seq<Elem>, i: nat)
    requires i < |elems|
  {
    || (IsHigh(elems[i]) && !(i + 1 < |elems| && IsLow(elems[i + 1])))
    || (IsLow(elems[i]) && !(i > 0 && IsHigh(elems[i - 1])))
  }

  ghost predicate SomeLonely(elems: seq<Elem>) {
    exists i :: 0 <= i < |elems| && Lonely(elems, i)
  }

  lemma LonelyAfterOther(elems: seq<Elem>)
    requires elems != [] && !IsHigh(elems[0]) && !IsLow(elems[0])
    ensures SomeLonely(elems) <==> SomeLonely(elems[1..])
  {
    forall i | 1 <= i < |elems|
      ensures Lonely(elems, i) <==> Lonely(elems[1..], i - 1)
    {
    }
    if SomeLonely(elems[1..]) {
      var j :| 0 <= j < |elems[1..]| && Lonely(elems[1..], j);
      assert Lonely(elems, j + 1);
    }
  }

  lemma LonelyAfterPair(elems: seq<Elem>)
    requires |elems| >= 2 && IsHigh(elems[0]) && IsLow(elems[1])
    ensures SomeLonely(elems) <==> SomeLonely(elems[2..])
  {
    forall i | 2 <= i < |elems|
      ensures Lonely(elems, i) <==> Lonely(elems[2..], i - 2)
    {
    }
    assert !Lonely(elems, 0) && !Lonely(elems, 1);
    if SomeLonely(elems[2..]) {
      var j :| 0 <= j < |elems[2..]| && Lonely(elems[2..], j);
      assert Lonely(elems, j + 2);
    }
  }

  /** Inside a string, the scan finds exactly the lonely surrogates of the
      string, and otherwise goes on behind it. */
  lemma {:induction false} ScanString(elems: seq<Elem>, rest: seq<char>)
    requires forall i :: 0 <= i < |elems| ==> GoodElem(elems[i])
    ensures Unpaired(PrintElems(elems) + [QUOTE] + rest, true) <==> SomeLonely(elems) || Unpaired(rest, false)
    decreases |elems|
  {
    if elems == [] {
      assert (PrintElems(elems) + [QUOTE] + rest)[1..] == rest;
    } else if elems[0].Unicode? {
      ScanUnicode(elems, rest);
    } else {
      var head, tail := PrintElem(elems[0]), PrintElems(elems[1..]);
      assert PrintElems(elems) == head + tail;
      assert GoodElem(elems[0]) && !IsHigh(elems[0]) && !IsLow(elems[0]);
      hide Unpaired, SomeLonely, GoodElem, PrintElem, PrintElems, IsHigh, IsLow;
      ScanString(elems[1..], rest);
      LonelyAfterOther(elems);
      OtherStep(elems[0], tail + [QUOTE] + rest);
      Regroup(head, tail, [QUOTE], rest);
    }
  }

  lemma OtherStep(e: Elem, t: seq<char>)
    requires GoodElem(e) && !e.Unicode?
    ensures Unpaired(PrintElem(e) + t, true) == Unpaired(t, true)
  {
    hide EscapeWidth;
    var s := PrintElem(e) + t;
    assert s[|PrintElem(e)|..] == t;
  }

  lemma QuadPrefix(digits: seq<char>, t: seq<char>)
    requires |digits| == 4
    ensures HexQuad(digits + t) == HexQuad(digits)
  {
  }

  /** `t` starts with the escape of a low surrogate. */
  ghost predicate StartsLow(t: seq<char>) {
    |t| >= 6 && t[0] == BACKSLASH && t[1] == 'u' && HexQuad(t[2..]).Some? && LowSurrogate(HexQuad(t[2..]).value)
  }

  lemma WidthOfUnicode(digits: seq<char>, t: seq<char>)
    requires |digits| == 4 && HexQuad(digits).Some?
    ensures var code := HexQuad(digits).value;
            EscapeWidth([BACKSLASH, 'u'] + digits + t) ==
            if LowSurrogate(code) then None
            else if !HighSurrogate(code) then Some(6)
            else if StartsLow(t) then Some(12)
            else None
  {
    hide HexQuad;
    var s := [BACKSLASH, 'u'] + digits + t;
    assert s[2..] == digits + t;
    QuadPrefix(digits, t);
    assert |s| >= 12 ==> s[6] == t[0] && s[7] == t[1] && s[8..] == t[2..];
  }

  lemma ElemStartsLow(e: Elem, after: seq<char>)
    requires GoodElem(e)
    ensures StartsLow(PrintElem(e) + after) <==> IsLow(e)
  {
    hide HexQuad, LowSurrogate;
    var t := PrintElem(e) + after;
    match e
    case Plain(c) => assert t[0] == c;
    case Escape(c) => assert t[1] == c;
    case Unicode(digits) =>
      assert t[2..] == digits + after;
      QuadPrefix(digits, after);
  }

  lemma TailStartsLow(elems: seq<Elem>, rest: seq<char>)
    requires forall i :: 0 <= i < |elems| ==> GoodElem(elems[i])
    ensures StartsLow(PrintElems(elems) + [QUOTE] + rest) <==> elems != [] && IsLow(elems[0])
  {
    if elems == [] {
      assert (PrintElems(elems) + [QUOTE] + rest)[0] == QUOTE;
    } else {
      hide StartsLow, IsLow, GoodElem, PrintElem;
      var after := PrintElems(elems[1..]) + [QUOTE] + rest;
      assert PrintElems(elems) + [QUOTE] + rest == PrintElem(elems[0]) + after;
      ElemStartsLow(elems[0], after);
    }
  }

  lemma UnicodeStep(digits: seq<char>, t: seq<char>)
    requires |digits| == 4 && HexQuad(digits).Some?
    ensures var code := HexQuad(digits).value;
            Unpaired([BACKSLASH, 'u'] + digits + t, true) ==
            if LowSurrogate(code) then true
            else if !HighSurrogate(code) then Unpaired(t, true)
            else if StartsLow(t) then Unpaired(t[6..], true)
            else true
  {
    WidthOfUnicode(digits, t);
    hide HexQuad, EscapeWidth;
    var s := [BACKSLASH, 'u'] + digits + t;
    assert s[6..] == t;
    if StartsLow(t) {
      assert s[12..] == t[6..];
    }
  }

  lemma {:induction false} ScanUnicode(elems: seq<Elem>, rest: seq<char>)
    requires forall i :: 0 <= i < |elems| ==> GoodElem(elems[i])
    requires elems != [] && elems[0].Unicode?
    ensures Unpaired(PrintElems(elems) + [QUOTE] + rest, true) <==> SomeLonely(elems) || Unpaired(rest, false)
    decreases |elems|, 0
  {
    hide HexQuad, Unpaired, StartsLow;
    var digits := elems[0].digits;
    var t := PrintElems(elems[1..]) + [QUOTE] + rest;
    assert PrintElems(elems) + [QUOTE] + rest == [BACKSLASH, 'u'] + digits + t;
    assert GoodElem(elems[0]);
    UnicodeStep(digits, t);
    TailStartsLow(elems[1..], rest);
    if !IsHigh(elems[0]) && !IsLow(elems[0]) {
      ScanString(elems[1..], rest);
      LonelyAfterOther(elems);
    } else if IsHigh(elems[0]) && |elems| > 1 && IsLow(elems[1]) {
      AfterPair(elems[1..], rest);
      assert elems[1..][1..] == elems[2..];
      ScanString(elems[2..], rest);
      LonelyAfterPair(elems);
    } else {
      assert Lonely(elems, 0);
    }
  }

  lemma AfterPair(elems: seq<Elem>, rest: seq<char>)
    requires elems != [] && elems[0].Unicode? && GoodElem(elems[0])
    ensures |PrintElems(elems)| >= 6
    ensures (PrintElems(elems) + [QUOTE] + rest)[6..] == PrintElems(elems[1..]) + [QUOTE] + rest
  {
    hide HexQuad;
    assert PrintElems(elems)[6..] == PrintElems(elems[1..]);
  }

  /** On every text made of strings and other bytes, as all JSON texts are, the
      scan answers true exactly if some string holds a surrogate escape that is
      not half of a pair. */
  lemma {:induction false} ScanIsExact(text: seq<Piece>)
    requires GoodText(text)
    ensures Unpaired(Print(text), false) <==> exists i :: 0 <= i < |text| && text[i].Str? && SomeLonely(text[i].elems)
  {
    hide SomeLonely;
    if text != [] {
      ScanIsExact(text[1..]);
      var rest := Print(text[1..]);
      ScanPiece(text[0], rest);
      hide Unpaired, Print;
      assert Print(text) == PrintPiece(text[0]) + rest by { UnfoldPrint(text); }
    }
  }

  lemma UnfoldPrint(text: seq<Piece>)
    requires text != []
    ensures Print(text) == PrintPiece(text[0]) + Print(text[1..])
  {
  }

  lemma ScanPiece(p: Piece, rest: seq<char>)
    requires GoodPiece(p)
    ensures Unpaired(PrintPiece(p) + rest, false) <==> (p.Str? && SomeLonely(p.elems)) || Unpaired(rest, false)
  {
    hide SomeLonely, GoodElem;
    match p
    case Outside(c) =>
      assert ([c] + rest)[1..] == rest;
    case Str(elems) =>
      assert (PrintPiece(p) + rest)[1..] == PrintElems(elems) + [QUOTE] + rest;
      ScanString(elems, rest);
  }

  // ----- Surrogates and digits, as UTF-16 and hexadecimal have them

  /** A high and a low surrogate stand together for a code point beyond the
      first plane, and exactly the pairs of them do. */
  lemma SurrogatesMean(high: nat, low: nat)
    ensures HighSurrogate(high) && LowSurrogate(low) <==>
            exists point: nat :: 0x1_0000 <= point <= 0x10_ffff && EncodesTo(point, high, low)
  {
    if HighSurrogate(high) && LowSurrogate(low) {
      var offset := (high - 0xd800) * 0x400 + (low - 0xdc00);
      assert offset / 0x400 == high - 0xd800 && offset % 0x400 == low - 0xdc00;
      assert EncodesTo(0x1_0000 + offset, high, low);
    }
  }

  /** UTF-16 writes `point` as these two units. */
  ghost predicate EncodesTo(point: nat, high: nat, low: nat)
    requires point >= 0x1_0000
  {
    high == 0xd800 + (point - 0x1_0000) / 0x400 && low == 0xdc00 + (point - 0x1_0000) % 0x400
  }

  /** The digits are those of hexadecimal, in either case. */
  lemma DigitsMean(c: char)
    ensures IsHex(c) <==> c in "0123456789abcdef" || c in "ABCDEF"
    ensures forall d :: 0 <= d < 16 && (c == "0123456789abcdef"[d] || c == "0123456789ABCDEF"[d]) ==> IsHex(c) && Digit(c) == d
  {
    if IsHex(c) {
      var d := Digit(c);
      assert c == "0123456789abcdef"[d] || (d >= 10 && c == "ABCDEF"[d - 10]);
    }
  }

  // ----- Removing white space

  datatype Mode = OutsideString | InString | Escaped

  /** The mode after reading `c`. */
  function Next(mode: Mode, c: char): Mode {
    match mode
    case OutsideString => if c == QUOTE then InString else OutsideString
    case InString => if c == BACKSLASH then Escaped else if c == QUOTE then OutsideString else InString
    case Escaped => InString
  }

  predicate IsSpace(c: char) { c == ' ' || c == '\t' || c == '\r' || c == '\n' }

  /** What is left of `c`. */
  function Kept(mode: Mode, c: char): (r: seq<char>)
    ensures r == [] || r == [c]
  {
    if mode == OutsideString && IsSpace(c) then [] else [c]
  }

  /** `s` without the white space outside strings. */
  ghost function Compact(s: seq<char>, mode: Mode): seq<char> {
    if s == [] then [] else Kept(mode, s[0]) + Compact(s[1..], Next(mode, s[0]))
  }

  lemma CompactCons(c: char, t: seq<char>, mode: Mode)
    ensures Compact([c] + t, mode) == Kept(mode, c) + Compact(t, Next(mode, c))
  {
    hide Kept, Next;
    assert ([c] + t)[1..] == t;
  }

  lemma CompactAt(record: seq<char>, i: nat, mode: Mode, done: seq<char>)
    requires i < |record|
    ensures done + Compact(record[i..], mode)
         == (done + Kept(mode, record[i])) + Compact(record[i + 1..], Next(mode, record[i]))
  {
    hide Kept, Next;
    assert record[i..] == [record[i]] + record[i + 1..];
    CompactCons(record[i], record[i + 1..], mode);
  }

  function ModeOf(inString: bool, escaped: bool): Mode {
    if !inString then OutsideString else if escaped then Escaped else InString
  }

  method CompactJSON(record: seq<char>) returns (compacted: seq<char>)
    ensures compacted == Compact(record, OutsideString)
  {
    hide Compact;
    compacted := [];
    var inString, escaped := false, false;
    assert record[0..] == record;
    for i := 0 to |record|
      invariant escaped ==> inString
      invariant compacted + Compact(record[i..], ModeOf(inString, escaped)) == Compact(record, OutsideString)
    {
      var value := record[i];
      CompactAt(record, i, ModeOf(inString, escaped), compacted);
      if inString {
        compacted := compacted + [value];
        if escaped {
          escaped := false;
        } else if value == BACKSLASH {
          escaped := true;
        } else if value == QUOTE {
          inString := false;
        }
        continue;
      }
      if value == QUOTE {
        inString := true;
        compacted := compacted + [value];
        continue;
      }
      if value != ' ' && value != '\t' && value != '\r' && value != '\n' {
        compacted := compacted + [value];
      } else {
        assert compacted + [] == compacted;
      }
    }
    CompactEnd(record, ModeOf(inString, escaped));
  }

  lemma CompactEnd(record: seq<char>, mode: Mode)
    ensures Compact(record[|record|..], mode) == []
  {
  }

  /** The white space of section 2 of RFC 8259: space, tab, line feed and
      carriage return. */
  lemma SpacesMean(c: char)
    ensures Compact([c], OutsideString) == [] <==> c as int == 0x20 || c as int == 0x09 || c as int == 0x0a || c as int == 0x0d
  {
    CompactCons(c, [], OutsideString);
    assert [c] + [] == [c];
  }

  /** Doing it twice changes nothing more, on any bytes. */
  lemma {:induction false} CompactIdempotent(s: seq<char>, mode: Mode)
    ensures Compact(Compact(s, mode), mode) == Compact(s, mode)
  {
    if s != [] {
      var next := Next(mode, s[0]);
      var t := Compact(s[1..], next);
      CompactIdempotent(s[1..], next);
      if mode == OutsideString && IsSpace(s[0]) {
        assert Compact(s, mode) == t;
      } else {
        assert Compact(s, mode) == [s[0]] + t;
        CompactCons(s[0], t, mode);
      }
    }
  }

  /** The text without its white space outside strings. */
  ghost function Dense(text: seq<Piece>): seq<Piece> {
    if text == [] then []
    else (if text[0].Outside? && IsSpace(text[0].c) then [] else [text[0]]) + Dense(text[1..])
  }

  lemma {:induction false} CompactString(elems: seq<Elem>, rest: seq<char>)
    requires forall i :: 0 <= i < |elems| ==> GoodElem(elems[i])
    ensures Compact(PrintElems(elems) + [QUOTE] + rest, InString) ==
            PrintElems(elems) + [QUOTE] + Compact(rest, OutsideString)
  {
    if elems == [] {
      assert PrintElems(elems) + [QUOTE] + rest == [QUOTE] + rest;
      CompactCons(QUOTE, rest, InString);
    } else {
      var head, tail := PrintElem(elems[0]), PrintElems(elems[1..]);
      CompactString(elems[1..], rest);
      CompactElem(elems[0], tail + [QUOTE] + rest);
      hide Compact, GoodElem, PrintElem;
      assert PrintElems(elems) == head + tail;
      Regroup(head, tail, [QUOTE], rest);
      Regroup(head, tail, [QUOTE], Compact(rest, OutsideString));
    }
  }

  lemma Regroup(a: seq<char>, b: seq<char>, c: seq<char>, d: seq<char>)
    ensures a + b + c + d == a + (b + c + d)
  {
  }

  lemma CompactElem(e: Elem, t: seq<char>)
    requires GoodElem(e)
    ensures Compact(PrintElem(e) + t, InString) == PrintElem(e) + Compact(t, InString)
  {
    hide Compact;
    match e
    case Plain(c) => CompactCons(c, t, InString);
    case Escape(c) =>
      assert [BACKSLASH, c] + t == [BACKSLASH] + ([c] + t);
      CompactCons(BACKSLASH, [c] + t, InString);
      CompactCons(c, t, Escaped);
    case Unicode(d) =>
      assert [BACKSLASH, 'u'] + d + t == [BACKSLASH] + (['u'] + (d + t));
      CompactCons(BACKSLASH, ['u'] + (d + t), InString);
      CompactCons('u', d + t, Escaped);
      CompactHex(d, t);
  }

  lemma {:induction false} CompactHex(d: seq<char>, t: seq<char>)
    requires forall i :: 0 <= i < |d| ==> IsHex(d[i])
    ensures Compact(d + t, InString) == d + Compact(t, InString)
  {
    if d == [] {
      assert d + t == t;
    } else {
      assert d + t == [d[0]] + (d[1..] + t);
      CompactCons(d[0], d[1..] + t, InString);
      CompactHex(d[1..], t);
    }
  }

  lemma CompactPiece(p: Piece, rest: seq<char>)
    requires GoodPiece(p)
    ensures Compact(PrintPiece(p) + rest, OutsideString)
         == (if p.Outside? then Kept(OutsideString, p.c) else PrintPiece(p)) + Compact(rest, OutsideString)
  {
    hide Compact, GoodElem;
    match p
    case Outside(c) => CompactCons(c, rest, OutsideString);
    case Str(elems) =>
      var inside := PrintElems(elems);
      Regroup([QUOTE], inside, [QUOTE], rest);
      CompactCons(QUOTE, inside + [QUOTE] + rest, OutsideString);
      CompactString(elems, rest);
      Regroup([QUOTE], inside, [QUOTE], Compact(rest, OutsideString));
  }

  /** On texts, exactly the white space outside strings goes; strings stay as
      they are. */
  lemma {:induction false} CompactIsDense(text: seq<Piece>)
    requires GoodText(text)
    ensures Compact(Print(text), OutsideString) == Print(Dense(text)) && GoodText(Dense(text))
  {
    if text != [] {
      hide GoodPiece;
      CompactIsDense(text[1..]);
      CompactPiece(text[0], Print(text[1..]));
      if text[0].Outside? && IsSpace(text[0].c) {
        assert Dense(text) == Dense(text[1..]);
      } else {
        assert Dense(text)[1..] == Dense(text[1..]);
      }
    }
  }

  /** So removing white space does not change the answer of the scan. */
  lemma CompactKeepsScan(text: seq<Piece>)
    requires GoodText(text)
    ensures Unpaired(Compact(Print(text), OutsideString), false) == Unpaired(Print(text), false)
  {
    CompactIsDense(text);
    ScanIsExact(text);
    ScanIsExact(Dense(text));
    DenseStrings(text);
  }

  lemma {:induction false} DenseStrings(text: seq<Piece>)
    ensures forall p: Piece :: p.Str? ==> (p in Dense(text) <==> p in text)
  {
    if text != [] {
      DenseStrings(text[1..]);
      assert text == [text[0]] + text[1..];
    }
  }
}
