/**
 * Full HDMI addresses (src/hdmi.h:55-64, src/hdmi.cpp:89-171): either a physical address, or a port of the TV
 * or of the audio system.
 */
module HdmiAddress {
  import opened Sequences
  import opened Streams
  import opened Hdmi

  /** The logical addresses the parser and printer distinguish. */
  datatype Logical = Tv | AudioSystem | Unknown | Other(code: int)

  datatype AddressValue = AddressValue(physical: nat, logical: Logical, port: nat)

  /** What `address()` constructs. */
  const BLANK: AddressValue := AddressValue(0, Unknown, 0)

  class Address {
    const physical: PhysicalAddress
    var logical: Logical
    var port: nat  // a uint8_t

    constructor ()
      ensures Value() == BLANK && fresh(physical)
    {
      physical := new PhysicalAddress(0);
      logical, port := Unknown, 0;
    }

    function Value(): AddressValue
      reads this, physical
    {
      AddressValue(physical.address, logical, port)
    }
  }

  /** The text behind "tv" or "av": a character and a port, which is stored even when it is refused. The junk
      is what the uninitialised local holds when no number can be read at all. */
  function ParsePort(s: In, tail: string, was: AddressValue, junk: nat): (In, AddressValue)
    requires s.Valid()
  {
    var (ss, c) := ReadChar(In(tail, 0, false, false), '\0');
    var (ss', port) := ReadUnsigned(ss, junk);
    (if ss'.fail || c != '.' || port < 1 || port > 15 then s.(fail := true) else s, was.(port := port % 256))
  }

  function ParseAddress(s: In, was: AddressValue, junk: nat): (In, AddressValue)
    requires s.Valid()
  {
    var (peeked, c) := Peek(s);
    if c.Some? && IsDigit(c.value) then
      var (s', physical) := ParsePhysical(peeked, was.physical);
      (s', was.(physical := physical))
    else
      var (s', word) := ReadWord(peeked);
      if "tv" <= word then
        if |word| == 2 then (s', was.(logical := Tv, port := 0))
        else ParsePort(s', word[2..], was.(logical := Tv), junk)
      else if "av" <= word then
        if |word| == 2 then (s'.(fail := true), was.(logical := AudioSystem))
        else ParsePort(s', word[2..], was.(logical := AudioSystem), junk)
      else (s'.(fail := true), was)
  }

  /** `in >> address`. */
  method ReadAddress(input: IStream, address: Address, junk: nat)
    requires input.state.Valid()
    modifies input, address, address.physical
    ensures (input.state, address.Value()) == ParseAddress(old(input.state), old(address.Value()), junk)
  {
    hide ReadWord, ParsePhysical;
    var (peeked, c) := Peek(input.state);
    input.state := peeked;
    if c.Some? && '0' <= c.value <= '9' {
      ReadPhysical(input, address.physical);
    } else {
      var (after, word) := ReadWord(input.state);
      input.state := after;
      if "tv" <= word {
        address.logical := Tv;
      } else if "av" <= word {
        address.logical := AudioSystem;
      } else {
        input.state := input.state.(fail := true);
        return;
      }
      var tail := word[2..];
      if tail == "" {
        if address.logical == Tv {
          address.port := 0;
        } else {
          input.state := input.state.(fail := true);
        }
      } else {
        var (ss, sep) := ReadChar(In(tail, 0, false, false), '\0');
        var (ss', port) := ReadUnsigned(ss, junk);
        if ss'.fail || sep != '.' || port < 1 || port > 15 {
          input.state := input.state.(fail := true);
        }
        address.port := port % 256;
      }
    }
  }

  // ------------------------------------------------------------ the language

  /** The text begins with an unsigned number (32 bits, modulo 2^32 behind a minus sign); the rest is ignored. */
  predicate Denotes(text: string, port: nat) {
    var n := IntegerAt(text, 0);
    && n.digits != "" && Number(n.digits) <= 0xffff_ffff
    && port == if n.negative then (0x1_0000_0000 - Number(n.digits)) % 0x1_0000_0000 else Number(n.digits)
  }

  /** The word behind the position names a device; None is a refused word. */
  ghost predicate DeviceWord(word: string, logical: Logical, port: nat) {
    || (word == "tv" && logical == Tv && port == 0)
    || (|word| > 2 && word[2] == '.' && 1 <= port <= 15 && Denotes(word[3..], port)
        && ((word[..2] == "tv" && logical == Tv) || (word[..2] == "av" && logical == AudioSystem)))
  }

  lemma PrefixTwo(p: string, word: string)
    requires |p| == 2
    ensures p <= word <==> |word| >= 2 && word[..2] == p
    ensures |word| > 2 ==> word == word[..2] + word[2..] && word[2..] != ""
    ensures |word| > 2 ==> word[2..][0] == word[2] && word[2..][1..] == word[3..]
  {
  }

  lemma PortText(tail: string, junk: nat)
    requires NoSpace(tail) && tail != ""
    ensures var (ss, port) := ReadUnsigned(In(tail, 1, false, false), junk);
            && (!ss.fail ==> Denotes(tail[1..], port))
            && (forall p :: Denotes(tail[1..], p) ==> !ss.fail && port == p)
  {
    if |tail| > 1 {
      assert tail[1] in tail;
      IntegerWithin(tail, 1, |tail|);
      assert tail[1..|tail|] == tail[1..];
    } else {
      assert tail[1..] == "";
      assert IntegerAt("", 0).digits == "";
    }
  }

  lemma TailPort(s: In, tail: string, was: AddressValue, junk: nat)
    requires s.Valid() && NoSpace(tail) && tail != ""
    ensures var (s', v) := ParsePort(s, tail, was, junk);
            && s' == s.(fail := s'.fail) && v == was.(port := v.port)
            && (s.fail ==> s'.fail)
            && (forall port :: !s.fail && tail[0] == '.' && 1 <= port <= 15 && Denotes(tail[1..], port) ==>
                  !s'.fail && v.port == port)
            && (!s'.fail ==> tail[0] == '.' && 1 <= v.port <= 15 && Denotes(tail[1..], v.port))
  {
    assert tail[0] in tail;
    assert ReadChar(In(tail, 0, false, false), '\0') == (In(tail, 1, false, false), tail[0]);
    PortText(tail, junk);
    hide ReadChar, ReadUnsigned, Denotes, NoSpace;
  }

  /** Where a word is read, with the flags the peek leaves. */
  function DeviceAt(s: In): (In, string)
    requires s.Valid()
  {
    ReadWord(Peek(s).0)
  }

  predicate StartsWithDigit(s: In)
    requires s.Valid()
  {
    s.pos < |s.text| && IsDigit(s.text[s.pos])
  }

  /** The words behind which the parser expects a port. */
  predicate NamesKind(word: string) { "tv" <= word || "av" <= word }

  function KindOf(word: string): Logical { if "tv" <= word then Tv else AudioSystem }

  lemma WordOfDevice(s: In)
    requires s.Valid() && s.Good()
    ensures NoSpace(DeviceAt(s).1)
  {
    WordsHaveNoSpace(Peek(s).0);
  }

  /** For a word of more than two letters that names a kind of device. */
  lemma KindParsed(s: In, was: AddressValue, junk: nat)
    requires s.Valid() && s.Good() && !StartsWithDigit(s)
    requires NamesKind(DeviceAt(s).1) && |DeviceAt(s).1| > 2
    ensures var (read, word) := DeviceAt(s);
            && NoSpace(word[2..])
            && ParseAddress(s, was, junk) == ParsePort(read, word[2..], was.(logical := KindOf(word)), junk)
  {
    WordOfDevice(s);
    var word := DeviceAt(s).1;
    assert forall c | c in word[2..] :: c in word;
    hide ReadWord, ParsePort;
  }

  /** The outcome of a parse whose word is `word`: success exactly if the word names a device. */
  ghost predicate Outcome(read: In, word: string, was: AddressValue, s': In, v: AddressValue) {
    && s' == read.(fail := s'.fail) && v.physical == was.physical
    && (!s'.fail ==> DeviceWord(word, v.logical, v.port))
    && (forall logical, port :: DeviceWord(word, logical, port) ==>
          !s'.fail && v.logical == logical && v.port == port)
  }

  lemma KindSplit(word: string)
    requires NamesKind(word) && |word| > 2
    ensures var tail := word[2..]; tail != "" && tail[0] == word[2] && tail[1..] == word[3..] && word != "tv"
    ensures KindOf(word) == Tv <==> word[..2] == "tv"
    ensures KindOf(word) == AudioSystem <==> word[..2] == "av"
  {
    PrefixTwo("tv", word);
    PrefixTwo("av", word);
  }

  lemma LongWord(s: In, was: AddressValue, junk: nat)
    requires s.Valid() && s.Good() && !StartsWithDigit(s)
    requires NamesKind(DeviceAt(s).1) && |DeviceAt(s).1| > 2
    ensures var (s', v) := ParseAddress(s, was, junk);
            var (read, word) := DeviceAt(s);
            Outcome(read, word, was, s', v)
  {
    var (read, word) := DeviceAt(s);
    KindParsed(s, was, junk);
    WordRead(s);
    KindSplit(word);
    hide ParseAddress, ParsePort, DeviceAt, Denotes, NoSpace, NamesKind, KindOf;
    TailPort(read, word[2..], was.(logical := KindOf(word)), junk);
  }

  lemma WordRead(s: In)
    requires s.Valid()
    ensures DeviceAt(s).1 != "" ==> !DeviceAt(s).0.fail
  {
    WordsHaveNoSpace(Peek(s).0);
  }

  lemma ShortWord(s: In, was: AddressValue, junk: nat)
    requires s.Valid() && s.Good() && !StartsWithDigit(s)
    requires !(NamesKind(DeviceAt(s).1) && |DeviceAt(s).1| > 2)
    ensures var (s', v) := ParseAddress(s, was, junk);
            var (read, word) := DeviceAt(s);
            Outcome(read, word, was, s', v)
  {
    var word := DeviceAt(s).1;
    WordRead(s);
    hide ReadWord, ParsePort, Denotes;
    PrefixTwo("tv", word);
    PrefixTwo("av", word);
  }

  /**
   * The exact language: a stream that does not begin with a digit is accepted exactly when the next word names a
   * device, and the address then holds that device and port.
   */
  lemma DeviceLanguage(s: In, was: AddressValue, junk: nat)
    requires s.Valid() && s.Good() && !StartsWithDigit(s)
    ensures var (s', v) := ParseAddress(s, was, junk);
            var (read, word) := DeviceAt(s);
            && s' == read.(fail := s'.fail) && v.physical == was.physical
            && (!s'.fail ==> DeviceWord(word, v.logical, v.port))
            && (forall logical, port :: DeviceWord(word, logical, port) ==>
                  !s'.fail && v.logical == logical && v.port == port)
  {
    hide ParseAddress, DeviceAt, DeviceWord;
    if NamesKind(DeviceAt(s).1) && |DeviceAt(s).1| > 2 {
      LongWord(s, was, junk);
    } else {
      ShortWord(s, was, junk);
    }
  }

  // ------------------------------------------------------------ what a failed parse leaves behind

  /** A refused physical address is not stored. */
  lemma RefusedPhysical(s: In, was: nat)
    requires s.Valid() && ParsePhysical(s, was).0.fail
    ensures ParsePhysical(s, was).1 == was
  {
    StartOnTrack(s, [0, 0, 0, 0]);
    hide Accepted, OnTrack, Values, ReadWord;
  }

  /** Reading a port consults the junk exactly when there is nothing behind the first character. */
  lemma JunkPort(tail: string, junk: nat)
    requires NoSpace(tail) && tail != ""
    ensures var (ss, c) := ReadChar(In(tail, 0, false, false), '\0');
            && ss == In(tail, 1, false, false) && c == tail[0]
            && (|tail| == 1 ==> ReadUnsigned(ss, junk) == (In(tail, 1, true, true), junk))
            && (|tail| > 1 ==> ReadUnsigned(ss, junk) == ReadUnsigned(ss, 0))
  {
    assert tail[0] in tail;
    if |tail| > 1 {
      assert tail[1] in tail;
    }
    hide NoSpace, IntegerAt;
  }

  lemma PortStored(s: In, tail: string, was: AddressValue, junk: nat)
    requires s.Valid() && NoSpace(tail) && tail != ""
    ensures |tail| == 1 ==> ParsePort(s, tail, was, junk) == (s.(fail := true), was.(port := junk % 256))
    ensures |tail| > 1 ==> ParsePort(s, tail, was, junk) == ParsePort(s, tail, was, 0)
  {
    JunkPort(tail, junk);
    JunkPort(tail, 0);
    hide ReadChar, ReadUnsigned, NoSpace;
  }

  /** The byte that is stored for the port of a word of more than two letters. */
  function StoredPort(word: string, junk: nat): nat
    requires |word| > 2
  {
    ReadUnsigned(In(word[2..], 1, false, false), junk).1 % 256
  }

  lemma KindStored(s: In, was: AddressValue, junk: nat)
    requires s.Valid() && s.Good() && !StartsWithDigit(s)
    requires NamesKind(DeviceAt(s).1) && |DeviceAt(s).1| > 2
    ensures var word := DeviceAt(s).1;
            ParseAddress(s, was, junk).1 == was.(logical := KindOf(word), port := StoredPort(word, junk))
  {
    KindParsed(s, was, junk);
    var word := DeviceAt(s).1;
    hide ParseAddress, DeviceAt, ReadChar, ReadUnsigned, NoSpace, NamesKind, KindOf;
    JunkPort(word[2..], junk);
  }

  /**
   * A failed parse leaves the address as it was exactly if the text begins like a physical address, or its word with
   * neither "tv" nor "av", or if what has been overwritten happens to be the same: the logical address and, where
   * the word is longer than its first two letters, the port.
   */
  lemma FailureLeavesAddress(s: In, was: AddressValue, junk: nat)
    requires s.Valid() && s.Good() && ParseAddress(s, was, junk).0.fail
    ensures var word := DeviceAt(s).1;
            ParseAddress(s, was, junk).1 == was <==>
            || StartsWithDigit(s) || !NamesKind(word)
            || (KindOf(word) == was.logical && (|word| == 2 || StoredPort(word, junk) == was.port))
  {
    var word := DeviceAt(s).1;
    if StartsWithDigit(s) {
      RefusedPhysical(s, was.physical);
      hide ReadWord, ReadUnsigned, ParsePhysical;
    } else if NamesKind(word) && |word| > 2 {
      KindStored(s, was, junk);
      hide ParseAddress, DeviceAt, StoredPort, NamesKind, KindOf;
    } else {
      hide ReadWord, ParsePort, StoredPort;
    }
  }

  /** A port is stored modulo 256, be it refused or not, whenever a number can be read. */
  lemma RefusedPortIsStored(s: In, was: AddressValue, junk: nat, n: nat)
    requires s.Valid() && s.Good() && !StartsWithDigit(s)
    requires NamesKind(DeviceAt(s).1) && |DeviceAt(s).1| > 2 && Denotes(DeviceAt(s).1[3..], n)
    ensures ParseAddress(s, was, junk).1 == was.(logical := KindOf(DeviceAt(s).1), port := n % 256)
  {
    var (read, word) := DeviceAt(s);
    KindParsed(s, was, junk);
    PrefixTwo(word[..2], word);
    hide DeviceAt, ParseAddress, ReadChar, ReadUnsigned, Denotes, NoSpace;
    PortText(word[2..], junk);
    JunkPort(word[2..], junk);
  }

  /** Once stored, what the uninitialised local holds shows exactly for "tv" or "av" and one more character. */
  lemma JunkIsStored(s: In, was: AddressValue)
    requires s.Valid() && s.Good()
    ensures (forall a, b :: ParseAddress(s, was, a) == ParseAddress(s, was, b)) <==>
            StartsWithDigit(s) || !(NamesKind(DeviceAt(s).1) && |DeviceAt(s).1| == 3)
  {
    var (read, word) := DeviceAt(s);
    if !StartsWithDigit(s) && NamesKind(word) && |word| > 2 {
      var kind := was.(logical := KindOf(word));
      forall junk: nat
        ensures ParseAddress(s, was, junk) == ParsePort(read, word[2..], kind, junk)
        ensures |word| == 3 ==> ParseAddress(s, was, junk) == (read.(fail := true), kind.(port := junk % 256))
        ensures |word| > 3 ==> ParseAddress(s, was, junk) == ParsePort(read, word[2..], kind, 0)
      {
        KindParsed(s, was, junk);
        hide ParseAddress, ParsePort, DeviceAt;
        PortStored(read, word[2..], kind, junk);
      }
      if |word| == 3 {
        assert ParseAddress(s, was, 0) != ParseAddress(s, was, 1);
      }
    } else {
      hide ReadWord, ParsePhysical;
    }
  }

  // ------------------------------------------------------------ printing and the round trip

  /** `out << address`. As coded the port is a uint8_t and comes out as one raw character. */
  function Show(v: AddressValue, asCoded: bool): string
    requires v.port < 256
  {
    var port := if v.port == 0 then "" else "." + if asCoded then [v.port as char] else Decimal(v.port);
    match v.logical
    case Tv => "tv" + port
    case AudioSystem => "av" + port
    case _ => ShowPhysical(v.physical)
  }

  /** The values a successful parse into a blank address can produce. */
  predicate Canonical(v: AddressValue) {
    || (v.logical == Tv && v.port <= 15 && v.physical == 0)
    || (v.logical == AudioSystem && 1 <= v.port <= 15 && v.physical == 0)
    || (v.logical == Unknown && v.port == 0 && v.physical < 0x1_0000)
  }

  lemma ParsedIsCanonical(s: In, junk: nat)
    requires s.Valid() && s.Good()
    ensures var (s', v) := ParseAddress(s, BLANK, junk); !s'.fail ==> Canonical(v)
  {
    if !StartsWithDigit(s) {
      hide ParseAddress, Denotes, ReadWord;
      DeviceLanguage(s, BLANK, junk);
    } else {
      hide Accepted, Values, ReadWord;
    }
  }

  lemma DecimalDenotes(n: nat)
    requires n <= 0xffff_ffff
    ensures Denotes(Decimal(n), n)
  {
    DecimalPart(n);
    NumberOfDecimal(n);
    var p := Decimal(n);
    assert p[0] in p;
    forall k | 0 <= k < |p| ensures IsDigit(p[k]) {
      assert p[k] in p;
    }
    DigitsEndIs(p, 0, |p|);
    assert p[0..|p|] == p;
  }

  /** A device name, a dot and a number. */
  function PortWord(name: string, n: nat): string { name + ("." + Decimal(n)) }

  lemma PortWordShape(name: string, n: nat)
    requires (name == "tv" || name == "av") && n <= 0xffff_ffff
    ensures var word := PortWord(name, n);
            && NoSpace(word) && |word| > 3 && !IsDigit(word[0]) && word[..2] == name && word[2] == '.'
            && NamesKind(word) && Denotes(word[3..], n)
            && KindOf(word) == if name == "tv" then Tv else AudioSystem
  {
    var word := PortWord(name, n);
    DecimalDenotes(n);
    DecimalPart(n);
    assert word == (name + ".") + Decimal(n);
    assert NoSpace(name + ".");
    hide Denotes, PartOk, NoDot, ValueOf, PartValue;
    NoSpaceConcat(name + ".", Decimal(n));
    DropFront(name + ".", Decimal(n));
    hide NoSpace;
  }

  lemma Shown(v: AddressValue)
    requires Canonical(v) && v.logical != Unknown
    ensures var word := Show(v, false);
            NoSpace(word) && |word| >= 2 && !IsDigit(word[0]) && DeviceWord(word, v.logical, v.port)
  {
    if v.port == 0 {
      assert Show(v, false) == "tv";
    } else {
      hide NoSpace, Denotes;
      PortWordShape(if v.logical == Tv then "tv" else "av", v.port);
      assert Show(v, false) == PortWord(if v.logical == Tv then "tv" else "av", v.port);
    }
  }

  /** A device word in context is read whole, whatever stands before it. */
  lemma DeviceInContext(before: string, word: string, rest: string)
    requires NoSpace(word) && word != "" && !IsDigit(word[0]) && (rest == "" || IsSpace(rest[0]))
    ensures var s := In(before + word + rest, |before|, false, false);
            && s.Valid() && s.pos < |s.text| && !IsDigit(s.text[s.pos])
            && DeviceAt(s) == (In(before + word + rest, |before| + |word|, rest == "", false), word)
  {
    var text := before + word + rest;
    CharInContext(before, word, rest);
    ReadWordInContext(before, word, rest);
  }

  lemma CharInContext(before: string, word: string, rest: string)
    requires word != ""
    ensures (before + word + rest)[|before|] == word[0]
  {
  }

  lemma ShownPhysicalParses(a: nat, before: string, rest: string, junk: nat)
    requires a < 0x1_0000 && (rest == "" || IsSpace(rest[0]))
    ensures var text := before + ShowPhysical(a) + rest;
            ParseAddress(In(text, |before|, false, false), BLANK, junk) ==
            (In(text, |before| + |ShowPhysical(a)|, rest == "", false), AddressValue(a, Unknown, 0))
  {
    hide ShowPhysical, ParsePhysical;
    ShownParts(a);
    CharInContext(before, ShowPhysical(a), rest);
    PhysicalRoundTrip(before, a, rest, 0);
  }

  lemma ShownParses(v: AddressValue, before: string, rest: string, junk: nat)
    requires Canonical(v) && (rest == "" || IsSpace(rest[0]))
    ensures var text := before + Show(v, false) + rest;
            ParseAddress(In(text, |before|, false, false), BLANK, junk) ==
            (In(text, |before| + |Show(v, false)|, rest == "", false), v)
  {
    hide ParseAddress, DeviceAt;
    if v.logical == Unknown {
      ShownPhysicalParses(v.physical, before, rest, junk);
    } else {
      hide Show;
      Shown(v);
      DeviceInContext(before, Show(v, false), rest);
      DeviceLanguage(In(before + Show(v, false) + rest, |before|, false, false), BLANK, junk);
    }
  }

  /**
   * Full round trip, with the port printed in decimal: whatever a stream holds, if it parses into a blank address
   * then printing that address anywhere and parsing it again gives the same address and consumes just that text.
   */
  lemma FullRoundTrip(s: In, junk: nat, before: string, rest: string, junk': nat)
    requires s.Valid() && s.Good() && (rest == "" || IsSpace(rest[0]))
    requires !ParseAddress(s, BLANK, junk).0.fail
    ensures var v := ParseAddress(s, BLANK, junk).1;
            && v.port < 256
            && var text := before + Show(v, false) + rest;
               ParseAddress(In(text, |before|, false, false), BLANK, junk') ==
               (In(text, |before| + |Show(v, false)|, rest == "", false), v)
  {
    hide ParseAddress;
    ParsedIsCanonical(s, junk);
    ShownParses(ParseAddress(s, BLANK, junk).1, before, rest, junk');
  }

  lemma NoDigitNoPort(c: char, port: nat)
    requires !IsDigit(c) && c != '+' && c != '-'
    ensures !Denotes([c], port) && !Denotes("", port)
  {
    assert IntegerAt([c], 0).digits == "";
    assert IntegerAt("", 0).digits == "";
  }

  /** A word that names no device is refused, wherever it stands. */
  lemma RefusedInContext(before: string, word: string, rest: string, junk: nat)
    requires NoSpace(word) && word != "" && !IsDigit(word[0]) && (rest == "" || IsSpace(rest[0]))
    requires forall logical, port :: !DeviceWord(word, logical, port)
    ensures ParseAddress(In(before + word + rest, |before|, false, false), BLANK, junk).0.fail
  {
    hide ParseAddress, DeviceAt, DeviceWord, NoSpace;
    DeviceInContext(before, word, rest);
    DeviceLanguage(In(before + word + rest, |before|, false, false), BLANK, junk);
  }

  /** Neither "tv." nor "av." with a character that begins no number names a device. */
  lemma NoDevice(name: string, c: char, logical: Logical, port: nat)
    requires |name| == 3 && !IsDigit(c) && c != '+' && c != '-'
    ensures !DeviceWord(name, logical, port) && !DeviceWord(name + [c], logical, port)
  {
    NoDigitNoPort(c, port);
    assert name[3..] == "" && (name + [c])[3..] == [c];
  }

  /** The raw port character is a space or no number; either way no device is named. */
  lemma RawPortIsRefused(v: AddressValue, before: string, rest: string, junk: nat)
    requires Canonical(v) && v.port != 0 && (rest == "" || IsSpace(rest[0]))
    ensures ParseAddress(In(before + Show(v, true) + rest, |before|, false, false), BLANK, junk).0.fail
  {
    hide ParseAddress, DeviceWord;
    var c := v.port as char;
    var name := if v.logical == Tv then "tv." else "av.";
    assert Show(v, true) == name + [c];
    forall logical, port ensures !DeviceWord(name, logical, port) && !DeviceWord(name + [c], logical, port) {
      NoDevice(name, c, logical, port);
    }
    if IsSpace(c) {
      assert before + (name + [c]) + rest == before + name + ([c] + rest);
      RefusedInContext(before, name, [c] + rest, junk);
    } else {
      NoSpaceConcat(name, [c]);
      RefusedInContext(before, name + [c], rest, junk);
    }
  }

  /** As coded, printing and parsing gives a parsed address back exactly when it has no port. */
  lemma AsCodedRoundTrip(v: AddressValue, before: string, rest: string, junk: nat)
    requires Canonical(v) && (rest == "" || IsSpace(rest[0]))
    ensures var s := In(before + Show(v, true) + rest, |before|, false, false);
            var (s', v') := ParseAddress(s, BLANK, junk);
            !s'.fail && v' == v <==> v.port == 0
  {
    if v.port == 0 {
      assert Show(v, true) == Show(v, false);
      hide ParseAddress, Show;
      ShownParses(v, before, rest, junk);
    } else {
      hide ParseAddress, Show;
      RawPortIsRefused(v, before, rest, junk);
    }
  }

  lemma DenotesOnce(text: string, n: nat)
    requires Denotes(text, n)
    ensures forall m :: Denotes(text, m) ==> m == n
  {
  }

  /**
   * Any port out of range is refused, and its last eight bits are stored all the same: "tv.99" leaves a TV address
   * with port 99, and "tv.257" one with port 1.
   */
  lemma OutOfRangeIsStored(name: string, n: nat, before: string, rest: string, junk: nat)
    requires (name == "tv" || name == "av") && n <= 0xffff_ffff && !(1 <= n <= 15)
    requires rest == "" || IsSpace(rest[0])
    ensures var text, kind := before + PortWord(name, n) + rest, if name == "tv" then Tv else AudioSystem;
            ParseAddress(In(text, |before|, false, false), BLANK, junk) ==
            (In(text, |before| + |PortWord(name, n)|, rest == "", true), AddressValue(0, kind, n % 256))
  {
    hide ParseAddress, DeviceAt, Denotes, PortWord;
    var word := PortWord(name, n);
    var s := In(before + word + rest, |before|, false, false);
    PortWordShape(name, n);
    DeviceInContext(before, word, rest);
    RefusedPortIsStored(s, BLANK, junk, n);
    DeviceLanguage(s, BLANK, junk);
    hide NoSpace;
    DenotesOnce(word[3..], n);
  }

  lemma AvNeedsAPort(before: string, rest: string, junk: nat)
    requires rest == "" || IsSpace(rest[0])
    ensures ParseAddress(In(before + "av" + rest, |before|, false, false), BLANK, junk).0.fail
  {
    hide ParseAddress, DeviceAt;
    DeviceInContext(before, "av", rest);
    DeviceLanguage(In(before + "av" + rest, |before|, false, false), BLANK, junk);
  }

  /** A device whose port is out of range, or the audio system without one, does not read back. */
  lemma BadPortIsRefused(v: AddressValue, before: string, rest: string, junk: nat)
    requires v.port < 256 && (rest == "" || IsSpace(rest[0]))
    requires (v.logical == Tv && v.port > 15) || (v.logical == AudioSystem && !(1 <= v.port <= 15))
    ensures ParseAddress(In(before + Show(v, false) + rest, |before|, false, false), BLANK, junk).0.fail
  {
    hide ParseAddress;
    if v.port == 0 {
      assert Show(v, false) == "av" + "" == "av";
      AvNeedsAPort(before, rest, junk);
    } else {
      var name := if v.logical == Tv then "tv" else "av";
      assert Show(v, false) == PortWord(name, v.port);
      hide Show, PortWord;
      OutOfRangeIsStored(name, v.port, before, rest, junk);
    }
  }

  /**
   * The exact round trip with a decimal port, for every address an object can hold: printing and parsing gives it
   * back, consuming just the printed text, exactly if it is canonical.
   */
  lemma WhenAddressesSurvive(v: AddressValue, before: string, rest: string, junk: nat)
    requires v.port < 256 && v.physical < 0x1_0000 && (rest == "" || IsSpace(rest[0]))
    ensures var text := before + Show(v, false) + rest;
            Canonical(v) <==> ParseAddress(In(text, |before|, false, false), BLANK, junk) ==
                              (In(text, |before| + |Show(v, false)|, rest == "", false), v)
  {
    hide ParseAddress, ShowPhysical;
    if Canonical(v) {
      hide Show;
      ShownParses(v, before, rest, junk);
    } else if v.logical != Tv && v.logical != AudioSystem {
      assert Show(v, false) == ShowPhysical(v.physical);
      ShownPhysicalParses(v.physical, before, rest, junk);
    } else if Canonical(v.(physical := 0)) {
      assert Show(v, false) == Show(v.(physical := 0), false);
      hide Show;
      ShownParses(v.(physical := 0), before, rest, junk);
    } else {
      hide Show;
      BadPortIsRefused(v, before, rest, junk);
    }
  }
}
