/** The fixed-width index record of the disk cache: how `putIndexEntry` prints
    it and how `get` reads it back. Bytes are written as characters. */
module IndexRecord {
  import opened Options

  datatype Result<+T> = Ok(value: T) | Miss(reason: string)

  const HASH_SIZE := 32
  const HEX_SIZE := 2 * HASH_SIZE
  const ENTRY_SIZE := 2 + 1 + HEX_SIZE + 1 + HEX_SIZE + 1 + 20 + 1 + 20 + 1
  const TWO63 := 0x8000_0000_0000_0000

  newtype Byte = b: int | 0 <= b < 256

  datatype Entry = Entry(out: seq<Byte>, size: int, time: int)

  ghost predicate IsId(id: seq<Byte>) { |id| == HASH_SIZE }

  predicate IsInt64(n: int) { -TWO63 <= n < TWO63 }

  // ----- Hexadecimal

  function HexDigit(d: nat): (c: char)
    requires d < 16
  {
    "0123456789abcdef"[d]
  }

  /** `%x`. */
  function Hex(bytes: seq<Byte>): (s: string)
    ensures |s| == 2 * |bytes|
  {
    if bytes == [] then []
    else [HexDigit(bytes[0] as nat / 16), HexDigit(bytes[0] as nat % 16)] + Hex(bytes[1..])
  }

  function FromHexDigit(c: char): (r: Option<nat>)
    ensures r.Some? ==> r.value < 16
  {
    if '0' <= c <= '9' then Some((c - '0') as nat)
    else if 'a' <= c <= 'f' then Some((c - 'a') as nat + 10)
    else if 'A' <= c <= 'F' then Some((c - 'A') as nat + 10)
    else None
  }

  /** `hex.Decode`. */
  function Unhex(s: string): (r: Option<seq<Byte>>)
    ensures r.Some? ==> |s| == 2 * |r.value|
  {
    if s == [] then Some([])
    else if |s| == 1 then None
    else
      var high, low, rest := FromHexDigit(s[0]), FromHexDigit(s[1]), Unhex(s[2..]);
      if high.None? || low.None? || rest.None? then None
      else Some([(16 * high.value + low.value) as Byte] + rest.value)
  }

  lemma DigitRoundTrip(d: nat)
    requires d < 16
    ensures FromHexDigit(HexDigit(d)) == Some(d)
  {
  }

  lemma PairRoundTrip(b: Byte, s: string)
    requires Unhex(s).Some?
    ensures Unhex([HexDigit(b as nat / 16), HexDigit(b as nat % 16)] + s) == Some([b] + Unhex(s).value)
  {
    DigitRoundTrip(b as nat / 16);
    DigitRoundTrip(b as nat % 16);
    hide HexDigit, FromHexDigit;
    assert ([HexDigit(b as nat / 16), HexDigit(b as nat % 16)] + s)[2..] == s;
  }

  lemma {:induction false} HexRoundTrip(bytes: seq<Byte>)
    ensures Unhex(Hex(bytes)) == Some(bytes)
  {
    if bytes != [] {
      HexRoundTrip(bytes[1..]);
      PairRoundTrip(bytes[0], Hex(bytes[1..]));
      hide HexDigit, FromHexDigit, Unhex;
      assert bytes == [bytes[0]] + bytes[1..];
    }
  }

  function Lower(s: string): (r: string)
    ensures |r| == |s|
    ensures forall i :: 0 <= i < |s| ==> r[i] == if 'A' <= s[i] <= 'Z' then s[i] - 'A' + 'a' else s[i]
  {
    seq(|s|, i requires 0 <= i < |s| => if 'A' <= s[i] <= 'Z' then s[i] - 'A' + 'a' else s[i])
  }

  lemma DigitUnique(c: char)
    requires FromHexDigit(c).Some?
    ensures HexDigit(FromHexDigit(c).value) == if 'A' <= c <= 'Z' then c - 'A' + 'a' else c
  {
  }

  /** Two texts decode to one ID only if they differ in the case of letters. */
  lemma {:induction false} UnhexUnique(s: string)
    requires Unhex(s).Some?
    ensures Lower(s) == Hex(Unhex(s).value)
  {
    if s != [] {
      var bytes := Unhex(s).value;
      var high, low := FromHexDigit(s[0]).value, FromHexDigit(s[1]).value;
      DigitUnique(s[0]);
      DigitUnique(s[1]);
      UnhexUnique(s[2..]);
      hide HexDigit, FromHexDigit;
      assert bytes[0] as nat / 16 == high && bytes[0] as nat % 16 == low;
      assert bytes[1..] == Unhex(s[2..]).value;
      hide Unhex;
      assert Lower(s) == [HexDigit(high), HexDigit(low)] + Lower(s[2..]);
    }
  }

  // ----- Decimal

  predicate IsDigit(c: char) { '0' <= c <= '9' }

  predicate AllDigits(s: string) { forall i :: 0 <= i < |s| ==> IsDigit(s[i]) }

  function Digits(n: nat): (s: string)
    ensures s != [] && forall i :: 0 <= i < |s| ==> IsDigit(s[i])
  {
    (if n < 10 then [] else Digits(n / 10)) + [('0' as int + n % 10) as char]
  }

  function Value(s: string): nat
    requires forall i :: 0 <= i < |s| ==> IsDigit(s[i])
  {
    if s == [] then 0 else assert IsDigit(s[|s| - 1]); 10 * Value(s[..|s| - 1]) + (s[|s| - 1] - '0') as nat
  }

  /** `%d`. */
  function Decimal(n: int): (s: string)
    ensures s != [] && s[0] != ' '
  {
    if n < 0 then "-" + Digits(-n) else Digits(n)
  }

  /** `%20d` pads on the left. */
  function Padded(s: string): (r: string)
    ensures |s| <= 20 ==> |r| == 20
  {
    seq(if |s| < 20 then 20 - |s| else 0, _ => ' ') + s
  }

  /** `strconv.ParseInt(s, 10, 64)`. */
  function ParseInt(s: string): (r: Option<int>)
    ensures r.Some? ==> IsInt64(r.value)
  {
    var signed := s != [] && (s[0] == '-' || s[0] == '+');
    var digits := if signed then s[1..] else s;
    if digits == [] || !AllDigits(digits) then None
    else
      var n: int := if signed && s[0] == '-' then -(Value(digits) as int) else Value(digits) as int;
      if IsInt64(n) then Some(n) else None
  }

  lemma {:induction false} DigitsRoundTrip(n: nat)
    ensures Value(Digits(n)) == n
  {
    var s := Digits(n);
    if n >= 10 {
      DigitsRoundTrip(n / 10);
      assert s[..|s| - 1] == Digits(n / 10);
    } else {
      assert s[..|s| - 1] == [];
    }
  }

  function Power(k: nat): nat { if k == 0 then 1 else 10 * Power(k - 1) }

  lemma {:induction false} DigitsLength(n: nat, k: nat)
    requires k > 0 && n < Power(k)
    ensures |Digits(n)| <= k
  {
    if n >= 10 {
      DigitsLength(n / 10, k - 1);
    }
  }

  lemma Power19()
    ensures Power(19) == 10_000_000_000_000_000_000
  {
    assert Power(5) == 100_000;
    assert Power(10) == 10_000_000_000;
    assert Power(15) == 1_000_000_000_000_000;
  }

  lemma ParseSigned(digits: string, negative: bool)
    requires digits != [] && forall i :: 0 <= i < |digits| ==> IsDigit(digits[i])
    ensures var s := if negative then "-" + digits else digits;
            var n := if negative then -(Value(digits) as int) else Value(digits) as int;
            IsInt64(n) ==> ParseInt(s) == Some(n)
  {
    hide Value;
    if negative {
      assert ("-" + digits)[1..] == digits;
    } else {
      assert IsDigit(digits[0]);
    }
  }

  /** What is a number: digits within 63 bits, ... */
  lemma ParsePlain(s: string)
    requires s != [] && AllDigits(s)
    ensures ParseInt(s) == if Value(s) < 0x8000_0000_0000_0000 then Some(Value(s) as int) else None
  {
    assert IsDigit(s[0]);
    hide Value;
  }

  /** ... perhaps behind a sign, ... */
  lemma ParseMinus(s: string)
    requires s != [] && AllDigits(s)
    ensures ParseInt("-" + s) == if Value(s) <= 0x8000_0000_0000_0000 then Some(-(Value(s) as int)) else None
  {
    hide Value;
    assert ("-" + s)[1..] == s;
  }

  lemma ParsePlus(s: string)
    requires s != [] && AllDigits(s)
    ensures ParseInt("+" + s) == if Value(s) < 0x8000_0000_0000_0000 then Some(Value(s) as int) else None
  {
    hide Value;
    assert ("+" + s)[1..] == s;
  }

  /** ... and nothing else. */
  lemma NoNumber(s: string)
    requires !AllDigits(s) || s == []
    requires s != [] && (s[0] == '-' || s[0] == '+') ==> !AllDigits(s[1..]) || |s| == 1
    ensures ParseInt(s) == None
  {
    hide Value;
    if |s| > 1 && (s[0] == '-' || s[0] == '+') {
      var i :| 0 <= i < |s[1..]| && !IsDigit(s[1..][i]);
    } else if s != [] && s[0] != '-' && s[0] != '+' {
      var i :| 0 <= i < |s| && !IsDigit(s[i]);
    }
  }

  lemma DecimalFits(n: int)
    requires IsInt64(n)
    ensures |Decimal(n)| <= 20 && ParseInt(Decimal(n)) == Some(n)
  {
    Power19();
    var m := if n < 0 then -n else n;
    hide Power, Digits, ParseInt, Value;
    DigitsLength(m, 19);
    DigitsRoundTrip(m);
    ParseSigned(Digits(m), n < 0);
  }

  function SkipSpaces(s: string): string {
    if s != [] && s[0] == ' ' then SkipSpaces(s[1..]) else s
  }

  lemma {:induction false} SkipPadding(n: nat, s: string)
    requires s != [] && s[0] != ' '
    ensures SkipSpaces(seq(n, _ => ' ') + s) == s
  {
    var t := seq(n, _ => ' ') + s;
    if n == 0 {
      assert t == s;
    } else {
      assert t[1..] == seq(n - 1, _ => ' ') + s;
      SkipPadding(n - 1, s);
    }
  }

  // ----- The record

  function Print(id: seq<Byte>, e: Entry): string {
    "v1" + " " + Hex(id) + " " + Hex(e.out) + " " + Padded(Decimal(e.size)) + " " + Padded(Decimal(e.time)) + "\n"
  }

  predicate Header(s: string)
    requires |s| == ENTRY_SIZE
  {
    && s[0] == 'v' && s[1] == '1' && s[2] == ' ' && s[67] == ' ' && s[132] == ' ' && s[153] == ' '
    && s[174] == '\n'
  }

  /** What `get` makes of the contents of the file for `id`. */
  function Parse(s: string, id: seq<Byte>): (r: Result<Entry>)
    ensures r.Ok? ==> |r.value.out| == HASH_SIZE && 0 <= r.value.size < TWO63 && 0 <= r.value.time < TWO63
  {
    if |s| > ENTRY_SIZE then Miss("too long")
    else if s == [] then Miss("file is empty")
    else if |s| < ENTRY_SIZE then Miss("entry file incomplete")
    else if !Header(s) then Miss("invalid header")
    else
      var eid, eout := Unhex(s[3..67]), Unhex(s[68..132]);
      if eid.None? then Miss("decoding ID")
      else if eid.value != id then Miss("mismatched ID")
      else if eout.None? then Miss("decoding output ID")
      else
        var size, time := ParseInt(SkipSpaces(s[133..153])), ParseInt(SkipSpaces(s[154..174]));
        if size.None? then Miss("parsing size")
        else if size.value < 0 then Miss("negative size")
        else if time.None? then Miss("parsing timestamp")
        else if time.value < 0 then Miss("negative timestamp")
        else Ok(Entry(eout.value, size.value, time.value))
  }

  method SkipSpacesLoop(s: string) returns (i: nat)
    ensures i <= |s| && s[i..] == SkipSpaces(s)
  {
    i := 0;
    assert s[0..] == s;
    while i < |s| && s[i] == ' '
      invariant i <= |s| && SkipSpaces(s[i..]) == SkipSpaces(s)
    {
      assert s[i..][1..] == s[i + 1..];
      i := i + 1;
    }
  }

  /** `get`, from the bytes of the file. */
  method Get(file: string, id: seq<Byte>) returns (r: Result<Entry>)
    requires |id| == HASH_SIZE
    ensures r == Parse(file, id)
  {
    hide SkipSpaces, Unhex, ParseInt;
    if |file| > ENTRY_SIZE {
      return Miss("too long");
    } else if |file| == 0 {
      return Miss("file is empty");
    } else if |file| < ENTRY_SIZE {
      return Miss("entry file incomplete");
    }
    if file[0] != 'v' || file[1] != '1' || file[2] != ' ' || file[3 + HEX_SIZE] != ' '
       || file[3 + HEX_SIZE + 1 + HEX_SIZE] != ' ' || file[3 + HEX_SIZE + 1 + HEX_SIZE + 1 + 20] != ' ' || file[ENTRY_SIZE - 1] != '\n' {
      return Miss("invalid header");
    }
    var eid, rest := file[3..3 + HEX_SIZE], file[3 + HEX_SIZE..];
    var eout, rest2 := rest[1..1 + HEX_SIZE], rest[1 + HEX_SIZE..];
    var esize, rest3 := rest2[1..1 + 20], rest2[1 + 20..];
    var etime := rest3[1..1 + 20];
    assert eid == file[3..67] && eout == file[68..132] && esize == file[133..153] && etime == file[154..174];
    var buf := Unhex(eid);
    if buf.None? {
      return Miss("decoding ID");
    } else if buf.value != id {
      return Miss("mismatched ID");
    }
    buf := Unhex(eout);
    if buf.None? {
      return Miss("decoding output ID");
    }
    var i := SkipSpacesLoop(esize);
    var size := ParseInt(esize[i..]);
    if size.None? {
      return Miss("parsing size");
    } else if size.value < 0 {
      return Miss("negative size");
    }
    i := SkipSpacesLoop(etime);
    var tm := ParseInt(etime[i..]);
    if tm.None? {
      return Miss("parsing timestamp");
    } else if tm.value < 0 {
      return Miss("negative timestamp");
    }
    r := Ok(Entry(buf.value, size.value, tm.value));
  }

  /** Every record of two IDs and two 64-bit integers is exactly as long as
      `get` expects, and its fields are where `get` looks. */
  lemma Layout(id: seq<Byte>, e: Entry)
    requires IsId(id) && IsId(e.out) && IsInt64(e.size) && IsInt64(e.time)
    ensures var s := Print(id, e);
            && |s| == ENTRY_SIZE && Header(s)
            && s[3..67] == Hex(id) && s[68..132] == Hex(e.out)
            && s[133..153] == Padded(Decimal(e.size)) && s[154..174] == Padded(Decimal(e.time))
  {
    DecimalFits(e.size);
    DecimalFits(e.time);
    FieldsInPlace(Hex(id), Hex(e.out), Padded(Decimal(e.size)), Padded(Decimal(e.time)));
    hide Decimal, Padded, Hex, ParseInt, Header;
  }

  lemma FieldsInPlace(a: string, b: string, c: string, d: string)
    requires |a| == |b| == HEX_SIZE && |c| == |d| == 20
    ensures var s := "v1" + " " + a + " " + b + " " + c + " " + d + "\n";
            |s| == ENTRY_SIZE && Header(s) && s[3..67] == a && s[68..132] == b && s[133..153] == c && s[154..174] == d
  {
    var l0, l1 := "v1", "v1" + " " + a;
    var l2 := l1 + " " + b;
    var l3 := l2 + " " + c;
    var l4 := l3 + " " + d;
    var s := l4 + "\n";
    assert l1[3..67] == a;
    Within(l0, " " + a, l1);
    Joined(l1, b, l2);
    Joined(l2, c, l3);
    Joined(l3, d, l4);
    Within(l4, "\n", s);
    Slice(l1, l2, 3, 67);
    Slice(l2, l3, 3, 67);
    Slice(l3, l4, 3, 67);
    Slice(l4, s, 3, 67);
    Slice(l2, l3, 68, 132);
    Slice(l3, l4, 68, 132);
    Slice(l4, s, 68, 132);
    Slice(l3, l4, 133, 153);
    Slice(l4, s, 133, 153);
    Slice(l4, s, 154, 174);
    assert s[174] == '\n';
    assert l1[0] == 'v' && l1[1] == '1' && l1[2] == ' ';
  }

  lemma Within(p: string, q: string, s: string)
    requires p + q == s
    ensures p <= s
  {
  }

  lemma Joined(p: string, f: string, s: string)
    requires s == p + " " + f
    ensures p <= s && |s| == |p| + 1 + |f| && s[|p|] == ' ' && s[|p| + 1..|s|] == f
  {
  }

  lemma Slice(p: string, s: string, i: nat, j: nat)
    requires p <= s && i <= j <= |p|
    ensures s[i..j] == p[i..j]
  {
  }

  lemma SkipPadded(s: string)
    requires s != [] && s[0] != ' '
    ensures SkipSpaces(Padded(s)) == s
  {
    hide SkipSpaces;
    SkipPadding(if |s| < 20 then 20 - |s| else 0, s);
  }

  lemma PaddedParses(n: int)
    requires IsInt64(n)
    ensures ParseInt(SkipSpaces(Padded(Decimal(n)))) == Some(n)
  {
    hide Decimal, ParseInt, Padded, SkipSpaces;
    DecimalFits(n);
    SkipPadded(Decimal(n));
  }

  /** Reading back a printed record: the entry itself, if the ID is the same and
      the numbers are not negative, and a miss otherwise. */
  lemma RoundTrip(id: seq<Byte>, e: Entry, other: seq<Byte>)
    requires IsId(id) && IsId(e.out) && IsInt64(e.size) && IsInt64(e.time)
    ensures |Print(id, e)| == ENTRY_SIZE
    ensures if id == other && e.size >= 0 && e.time >= 0 then Parse(Print(id, e), other) == Ok(e) else Parse(Print(id, e), other).Miss?
  {
    Layout(id, e);
    HexRoundTrip(id);
    HexRoundTrip(e.out);
    PaddedParses(e.size);
    PaddedParses(e.time);
    hide Print, Hex, Unhex, Padded, Decimal, ParseInt, SkipSpaces, Header;
  }

  lemma HeaderMeans(s: string)
    requires |s| == ENTRY_SIZE && Header(s)
    ensures s[..3] == "v1 " && s[67] == s[132] == s[153] == ' ' && s[174] == '\n'
  {
  }

  /** A file that reads as a hit holds the ID asked for and the output ID
      returned, up to the case of letters; a file of any other length, as after
      a write cut short, is a miss. */
  lemma HitHoldsIds(s: string, id: seq<Byte>)
    requires Parse(s, id).Ok?
    ensures |s| == 175 && Lower(s[3..67]) == Hex(id) && Lower(s[68..132]) == Hex(Parse(s, id).value.out)
    ensures s[..3] == "v1 " && s[67] == s[132] == s[153] == ' ' && s[174] == '\n'
    ensures ParseInt(SkipSpaces(s[133..153])) == Some(Parse(s, id).value.size)
    ensures ParseInt(SkipSpaces(s[154..174])) == Some(Parse(s, id).value.time)
  {
    HitFields(s, id);
    hide Parse, Hex, Unhex, ParseInt, SkipSpaces, Header, Lower;
    UnhexUnique(s[3..67]);
    UnhexUnique(s[68..132]);
    HeaderMeans(s);
  }

  lemma HitFields(s: string, id: seq<Byte>)
    requires Parse(s, id).Ok?
    ensures var e := Parse(s, id).value;
            && |s| == ENTRY_SIZE && Header(s) && Unhex(s[3..67]) == Some(id) && Unhex(s[68..132]) == Some(e.out)
            && ParseInt(SkipSpaces(s[133..153])) == Some(e.size) && ParseInt(SkipSpaces(s[154..174])) == Some(e.time)
  {
    hide Unhex, ParseInt, SkipSpaces, Header;
  }
}
