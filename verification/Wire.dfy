/**
 * The LIRC line protocol spoken to every client: the line that Main::writeLirc formats
 * (src/main.cpp:366-373), and a decoder showing that the byte stream can be read back.
 */
module Wire {
  import opened Sequences

  /** One emitted line: key code, repeat flag and LIRC key name. */
  datatype Record = Record(code: nat, repeat: bool, name: string)

  /** The names of the key table contain no separator, no line end and no C string terminator. */
  predicate CleanName(name: string) {
    forall c | c in name :: c != ' ' && c != '\n' && c != '\0'
  }

  predicate Clean(records: seq<Record>) {
    forall r | r in records :: CleanName(r.name)
  }

  const DIGITS: string := "0123456789abcdef"
  const TAIL: string := " RPICEC\n"

  function HexDigit(d: nat): (c: char)
    requires d < 16
    ensures c in DIGITS
  {
    DIGITS[d]
  }

  /** `stream << hex << n` for a non-negative n. */
  function Hex(n: nat): (s: string)
    ensures s != ""
    ensures forall c | c in s :: c in DIGITS
  {
    if n < 16 then [HexDigit(n)] else Hex(n / 16) + [HexDigit(n % 16)]
  }

  function Line(r: Record): (s: string)
    ensures s != ""
  {
    Hex(r.code) + " " + [if r.repeat then '1' else '0'] + " " + r.name + TAIL
  }

  function Lines(records: seq<Record>): (lines: seq<string>)
    ensures |lines| == |records|
    ensures forall i :: 0 <= i < |lines| ==> lines[i] == Line(records[i])
  {
    seq(|records|, i requires 0 <= i < |records| => Line(records[i]))
  }

  /** The bytes of a run of records on the wire. */
  function Encode(records: seq<Record>): string {
    Flatten(Lines(records))
  }

  // ------------------------------------------------------------ decoding

  /** Position of the first `c`, or the length of `s` when there is none. */
  function Find(s: string, c: char): (i: nat)
    ensures i <= |s|
    ensures i < |s| ==> s[i] == c
    ensures forall j :: 0 <= j < i ==> s[j] != c
  {
    if s == "" || s[0] == c then 0 else 1 + Find(s[1..], c)
  }

  /** 16 when the character is no hexadecimal digit. */
  function DigitValue(c: char): nat { Find(DIGITS, c) }

  function Unhex(s: string): Option<nat> {
    if s == "" then Some(0)
    else
      var n := |s| - 1;
      var d := DigitValue(s[n]);
      match Unhex(s[..n])
      case None => None
      case Some(high) => if d < 16 then Some(16 * high + d) else None
  }

  /** Read one line, its final newline included. */
  function ParseLine(line: string): Option<Record> {
    var i := Find(line, ' ');
    if |line| < i + 3 || line[i + 2] != ' ' || line[i + 1] !in "01" then None
    else
      var rest := line[i + 3..];
      var j := Find(rest, ' ');
      match Unhex(line[..i])
      case None => None
      case Some(code) =>
        if rest[j..] == TAIL then Some(Record(code, line[i + 1] == '1', rest[..j])) else None
  }

  /** What a client makes of the bytes it received: the complete lines, and the unfinished rest. */
  function Decode(bytes: string): (seq<Record>, string)
    decreases |bytes|
  {
    var k := Find(bytes, '\n');
    if k == |bytes| then ([], bytes)
    else
      match ParseLine(bytes[..k + 1])
      case None => ([], bytes)
      case Some(r) =>
        var (more, rest) := Decode(bytes[k + 1..]);
        ([r] + more, rest)
  }

  // ------------------------------------------------------------ round trip

  lemma FindIs(s: string, c: char, i: nat)
    requires i <= |s| && (i < |s| ==> s[i] == c)
    requires forall j :: 0 <= j < i ==> s[j] != c
    ensures Find(s, c) == i
  {
  }

  lemma FindDigit(d: nat)
    requires d < 16
    ensures DigitValue(HexDigit(d)) == d
  {
    FindIs(DIGITS, DIGITS[d], d);
  }

  lemma UnhexSnoc(s: string, c: char)
    requires Unhex(s).Some? && DigitValue(c) < 16
    ensures Unhex(s + [c]) == Some(16 * Unhex(s).value + DigitValue(c))
  {
    hide DigitValue;
    var t := s + [c];
    assert t[..|t| - 1] == s && t[|t| - 1] == c;
  }

  lemma {:induction false} UnhexHex(n: nat)
    ensures Unhex(Hex(n)) == Some(n)
  {
    hide Unhex, DigitValue, HexDigit;
    var c, high := HexDigit(n % 16), n / 16;
    FindDigit(n % 16);
    if n < 16 {
      assert Unhex("") == Some(0) by { UnhexNothing(); }
      UnhexSnoc("", c);
      assert Hex(n) == "" + [c];
    } else {
      UnhexHex(high);
      UnhexSnoc(Hex(high), c);
    }
  }

  lemma UnhexNothing()
    ensures Unhex("") == Some(0)
  {
  }

  lemma LineShape(r: Record)
    requires CleanName(r.name)
    ensures Find(Line(r), ' ') == |Hex(r.code)|
    ensures Find(Line(r), '\n') == |Line(r)| - 1
  {
    var h, s := Hex(r.code), Line(r);
    var n := |h| + 3;
    assert s[n..n + |r.name|] == r.name && s[n + |r.name|..] == TAIL;
    forall j | 0 <= j < |s| - 1 ensures s[j] != '\n' {
      if j < |h| {
        assert s[j] == h[j] && h[j] in h;
      } else if n <= j < n + |r.name| {
        assert s[j] == r.name[j - n] && r.name[j - n] in r.name;
      } else if n + |r.name| <= j {
        assert s[j] == TAIL[j - n - |r.name|];
      }
    }
    FindIs(s, '\n', |s| - 1);
    forall j | 0 <= j < |h| ensures s[j] != ' ' {
      assert s[j] == h[j] && h[j] in h;
    }
    FindIs(s, ' ', |h|);
  }

  lemma LineCuts(r: Record)
    ensures var s, i := Line(r), |Hex(r.code)|;
            && |s| > i + 3 && s[..i] == Hex(r.code) && s[i + 3..] == r.name + TAIL
            && s[i + 2] == ' ' && s[i + 1] == if r.repeat then '1' else '0'
  {
    hide Hex;
  }

  lemma ParseOfLine(r: Record)
    requires CleanName(r.name)
    ensures ParseLine(Line(r)) == Some(r)
  {
    hide Line, Hex, Unhex, Find;
    LineShape(r);
    UnhexHex(r.code);
    LineCuts(r);
    var rest := Line(r)[|Hex(r.code)| + 3..];
    forall j | 0 <= j < |r.name| ensures rest[j] != ' ' {
      assert rest[j] == r.name[j] && r.name[j] in r.name;
    }
    FindIs(rest, ' ', |r.name|);
    assert rest[..|r.name|] == r.name && rest[|r.name|..] == TAIL;
  }

  /** A proper beginning of a line: what a client is left with when its connection is dropped. */
  ghost predicate Unfinished(part: string) {
    part == "" || exists r: Record :: CleanName(r.name) && part < Line(r)
  }

  lemma DecodeStep(r: Record, rest: string)
    requires CleanName(r.name)
    ensures Decode(Line(r) + rest) == ([r] + Decode(rest).0, Decode(rest).1)
  {
    var s := Line(r);
    LineShape(r);
    ParseOfLine(r);
    var bytes := s + rest;
    assert forall j :: 0 <= j < |s| ==> bytes[j] == s[j];
    FindIs(bytes, '\n', |s| - 1);
    assert bytes[..|s|] == s && bytes[|s|..] == rest;
  }

  lemma EncodeCons(records: seq<Record>, part: string)
    requires Clean(records) && records != []
    ensures Encode(records) + part == Line(records[0]) + (Encode(records[1..]) + part)
    ensures CleanName(records[0].name) && Clean(records[1..])
    ensures [records[0]] + records[1..] == records
  {
    hide Line;
    assert Lines(records) == [Line(records[0])] + Lines(records[1..]);
    FlattenConcat([Line(records[0])], Lines(records[1..]));
    FlattenSnoc([], Line(records[0]));
    assert [] + [Line(records[0])] == [Line(records[0])];
    Associate(Line(records[0]), Encode(records[1..]), part);
  }

  lemma DecodeUnfinished(part: string)
    requires Unfinished(part)
    ensures Decode(part) == ([], part)
  {
    if part != "" {
      var r: Record :| CleanName(r.name) && part < Line(r);
      LineShape(r);
      FindIs(part, '\n', |part|);
    }
  }

  /**
   * Main result of the module: complete lines followed by the beginning of another decode to
   * exactly the records sent, with the unfinished bytes left over.
   */
  lemma {:induction false} DecodeEncode(records: seq<Record>, part: string)
    requires Clean(records) && Unfinished(part)
    ensures Decode(Encode(records) + part) == (records, part)
  {
    if records == [] {
      DecodeUnfinished(part);
      assert Encode(records) + part == part;
    } else {
      var rest := Encode(records[1..]) + part;
      EncodeCons(records, part);
      DecodeEncode(records[1..], part);
      DecodeStep(records[0], rest);
    }
  }

  /** No two histories of key events look the same on the wire. */
  lemma UniquelyDecodable(a: seq<Record>, b: seq<Record>)
    requires Clean(a) && Clean(b) && Encode(a) == Encode(b)
    ensures a == b
  {
    DecodeEncode(a, "");
    DecodeEncode(b, "");
    assert Encode(a) + "" == Encode(b) + "" == Encode(a);
  }

  // ------------------------------------------------------------ what a line looks like

  /** The value of a lower-case hexadecimal digit, by arithmetic on its character; 16 for any other character. */
  function HexValue(c: char): nat {
    if '0' <= c <= '9' then c as nat - '0' as nat
    else if 'a' <= c <= 'f' then c as nat - 'a' as nat + 10
    else 16
  }

  function Base16(s: string): nat {
    if s == "" then 0 else 16 * Base16(s[..|s| - 1]) + HexValue(s[|s| - 1])
  }

  lemma DigitMeans(d: nat)
    requires d < 16
    ensures HexValue(HexDigit(d)) == d
  {
  }

  lemma Base16Snoc(s: string, c: char)
    ensures Base16(s + [c]) == 16 * Base16(s) + HexValue(c)
  {
    assert (s + [c])[..|s|] == s;
  }

  lemma HexStep(n: nat)
    ensures Hex(n) == if n < 16 then [HexDigit(n)] else Hex(n / 16) + [HexDigit(n % 16)]
  {
    hide HexDigit;
  }

  lemma {:induction false} HexIsBase16(n: nat)
    ensures Base16(Hex(n)) == n
  {
    HexStep(n);
    DigitMeans(n % 16);
    hide Hex, HexDigit, HexValue, Base16;
    if n < 16 {
      Base16Snoc("", HexDigit(n));
      assert "" + [HexDigit(n)] == [HexDigit(n)];
      NoDigits();
    } else {
      HexIsBase16(n / 16);
      Base16Snoc(Hex(n / 16), HexDigit(n % 16));
    }
  }

  lemma NoDigits()
    ensures Base16("") == 0
  {
  }

  lemma {:induction false} HexDigitsOnly(n: nat)
    ensures forall c | c in Hex(n) :: HexValue(c) < 16
  {
    HexStep(n);
    DigitMeans(n % 16);
    hide Hex, HexDigit, HexValue;
    if n >= 16 {
      HexDigitsOnly(n / 16);
    }
  }

  lemma {:induction false} HexLeadingDigit(n: nat)
    ensures Hex(n)[0] == '0' ==> n == 0 && Hex(n) == "0"
  {
    HexStep(n);
    hide Hex, HexDigit;
    if n < 16 {
      ZeroDigit(n);
    } else {
      HexLeadingDigit(n / 16);
      assert Hex(n)[0] == Hex(n / 16)[0];
    }
  }

  /** `hex` prints the number to base 16 with the digits 0-9 and a-f, without leading zeros. */
  lemma HexMeans(n: nat)
    ensures Base16(Hex(n)) == n
    ensures forall c | c in Hex(n) :: HexValue(c) < 16
    ensures Hex(n)[0] == '0' ==> n == 0 && Hex(n) == "0"
  {
    hide Hex, HexValue, Base16;
    HexIsBase16(n);
    HexDigitsOnly(n);
    HexLeadingDigit(n);
  }

  lemma ZeroDigit(d: nat)
    requires d < 16
    ensures HexDigit(d) == '0' <==> d == 0
  {
  }

  /** The fields between the spaces of a line. */
  function Fields(s: string): (fs: seq<string>)
    ensures fs != []
  {
    var i := Find(s, ' ');
    if i == |s| then [s] else [s[..i]] + Fields(s[i + 1..])
  }

  lemma FieldsOf(first: string, rest: string)
    requires ' ' !in first
    ensures Fields(first + " " + rest) == [first] + Fields(rest)
  {
    var s := first + " " + rest;
    FindIs(s, ' ', |first|);
    assert s[..|first|] == first && s[|first| + 1..] == rest;
  }

  lemma LastField(last: string)
    requires ' ' !in last
    ensures Fields(last) == [last]
  {
    FindIs(last, ' ', |last|);
  }

  /** A line is four fields: the code in hexadecimal, the flag 0 or 1, the name, and RPICEC with the line end. */
  lemma LineFields(r: Record)
    requires CleanName(r.name)
    ensures Fields(Line(r)) == [Hex(r.code), if r.repeat then "1" else "0", r.name, "RPICEC\n"]
  {
    hide Hex, Fields;
    HexMeans(r.code);
    assert ' ' !in Hex(r.code) by {
      assert HexValue(' ') == 16;
    }
    var flag := [if r.repeat then '1' else '0'];
    assert Line(r) == Hex(r.code) + " " + (flag + " " + (r.name + " " + "RPICEC\n"));
    FieldsOf(Hex(r.code), flag + " " + (r.name + " " + "RPICEC\n"));
    FieldsOf(flag, r.name + " " + "RPICEC\n");
    FieldsOf(r.name, "RPICEC\n");
    LastField("RPICEC\n");
  }
}
