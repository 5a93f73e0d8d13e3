/**
 * HDMI addresses (src/hdmi.h, src/hdmi.cpp): nibble packing, the two parsers and the two printers. The notation
 * n.n.n.n is that of CEC physical addresses (section 8.7 of HDMI 1.3a).
 */
module Hdmi {
  import opened Sequences
  import opened Streams

  // ------------------------------------------------------------ packing

  /** `(v & 15)`, shifts and `|` on 16 bits, written with arithmetic. */
  function Pack(v: seq<int>): (a: nat)
    requires |v| == 4
    ensures a < 0x1_0000
  {
    v[0] % 16 * 4096 + v[1] % 16 * 256 + v[2] % 16 * 16 + v[3] % 16
  }

  /** `address[x]` for x in 0..3. */
  function Nibble(a: nat, x: nat): nat
    requires x < 4
  {
    match x
    case 0 => a / 4096 % 16
    case 1 => a / 256 % 16
    case 2 => a / 16 % 16
    case _ => a % 16
  }

  lemma NibblesOfSum(a: int, b: int, c: int, d: int)
    requires 0 <= a < 16 && 0 <= b < 16 && 0 <= c < 16 && 0 <= d < 16
    ensures var n := a * 4096 + b * 256 + c * 16 + d;
            Nibble(n, 0) == a && Nibble(n, 1) == b && Nibble(n, 2) == c && Nibble(n, 3) == d
  {
    var n := a * 4096 + b * 256 + c * 16 + d;
    assert n / 4096 == a;
    assert n / 256 == a * 16 + b;
    assert n / 16 == a * 256 + b * 16 + c;
  }

  /** Indexing gives back what was set, four bits of each value. */
  lemma PackedNibbles(v: seq<int>)
    requires |v| == 4
    ensures forall x :: 0 <= x < 4 ==> Nibble(Pack(v), x) == v[x] % 16
  {
    NibblesOfSum(v[0] % 16, v[1] % 16, v[2] % 16, v[3] % 16);
  }

  lemma FourDigits(a: nat)
    ensures a == a / 16 / 16 / 16 * 4096 + a / 16 / 16 % 16 * 256 + a / 16 % 16 * 16 + a % 16
  {
    var b := a / 16;
    var c := b / 16;
    assert a == 16 * b + a % 16 && b == 16 * c + b % 16 && c == 16 * (c / 16) + c % 16;
  }

  lemma PackOfNibbles(v: seq<int>)
    requires |v| == 4 && forall i :: 0 <= i < 4 ==> 0 <= v[i] < 16
    ensures Pack(v) == v[0] * 4096 + v[1] * 256 + v[2] * 16 + v[3]
  {
  }

  /** A 16-bit address is the packing of its four nibbles. */
  lemma NibblesPacked(a: nat)
    requires a < 0x1_0000
    ensures Pack([Nibble(a, 0), Nibble(a, 1), Nibble(a, 2), Nibble(a, 3)]) == a
  {
    var h, i, j, k := a / 16 / 16 / 16, a / 16 / 16 % 16, a / 16 % 16, a % 16;
    FourDigits(a);
    NibblesOfSum(h, i, j, k);
    PackOfNibbles([h, i, j, k]);
  }

  // ------------------------------------------------------------ the language of physical addresses

  function FindDot(s: string, pos: nat): (e: nat)
    requires pos <= |s|
    ensures pos <= e <= |s|
    ensures forall k :: pos <= k < e ==> s[k] != '.'
    ensures e < |s| ==> s[e] == '.'
    decreases |s| - pos
  {
    if pos < |s| && s[pos] != '.' then FindDot(s, pos + 1) else pos
  }

  /** The parts of a token between its dots, from a position on: at least one, possibly empty ones. */
  function PartsFrom(s: string, pos: nat): (ps: seq<string>)
    requires pos <= |s|
    ensures ps != []
    decreases |s| - pos
  {
    var e := FindDot(s, pos);
    if e == |s| then [s[pos..e]] else [s[pos..e]] + PartsFrom(s, e + 1)
  }

  function Parts(s: string): (ps: seq<string>)
    ensures ps != []
  {
    PartsFrom(s, 0)
  }

  /** A part denotes a number when it is an optional sign and then at least one digit, and nothing else. */
  function PartValue(p: string): Option<int> {
    var n := IntegerAt(p, 0);
    if n.end == |p| && n.digits != "" then Some(Signed(n)) else None
  }

  function ValueOf(p: string): int {
    match PartValue(p)
    case Some(v) => v
    case None => 0
  }

  predicate PartOk(p: string) {
    PartValue(p).Some? && 0 <= PartValue(p).value <= 15
  }

  /** One to four parts, each a number in 0..15. */
  predicate Accepted(s: string) {
    |Parts(s)| <= 4 && forall p | p in Parts(s) :: PartOk(p)
  }

  /** The values of the parts, left-justified, missing ones 0. */
  function Values(s: string): (v: seq<int>)
    requires Accepted(s)
    ensures |v| == 4
  {
    seq(4, i requires 0 <= i => if i < |Parts(s)| then ValueOf(Parts(s)[i]) else 0)
  }

  predicate NoSpace(s: string) { forall c | c in s :: !IsSpace(c) }

  lemma DigitsBehind(sign: string, digits: string)
    requires AllDigits(digits)
    ensures DigitsEnd(sign + digits, |sign|) == |sign + digits|
  {
    var p := sign + digits;
    forall k | |sign| <= k < |p| ensures IsDigit(p[k]) {
      assert p[k] == digits[k - |sign|] && digits[k - |sign|] in digits;
    }
    DigitsEndIs(p, |sign|, |p|);
  }

  lemma SignedNumber(sign: string, digits: string)
    requires sign in {"", "+", "-"} && AllDigits(digits) && digits != ""
    ensures PartValue(sign + digits) == Some(if sign == "-" then -(Number(digits) as int) else Number(digits))
  {
    assert digits[0] in digits;
    DigitsBehind(sign, digits);
    SignOf(sign, digits);
    hide IsDigit, AllDigits, Number, DigitsEnd, SignEnd;
    DropFront(sign, digits);
  }

  lemma SignOf(sign: string, digits: string)
    requires sign in {"", "+", "-"} && digits != "" && IsDigit(digits[0])
    ensures SignEnd(sign + digits, 0) == |sign| && ((sign + digits)[0] == '-' <==> sign == "-")
  {
  }

  /** The language of a part: an optional sign and at least one digit, leading zeros allowed, value in 0..15. */
  lemma PartLanguage(p: string)
    ensures PartOk(p) <==> exists sign: string, digits: string ::
              && sign in {"", "+", "-"} && AllDigits(digits) && digits != "" && p == sign + digits
              && Number(digits) <= 15 && (sign == "-" ==> Number(digits) == 0)
  {
    if PartOk(p) {
      var q := SignEnd(p, 0);
      var sign, digits := p[..q], p[q..];
      assert p[q..|p|] == p[q..];
      assert sign == if q == 0 then "" else [p[0]];
      assert p == sign + digits;
    }
    forall sign: string, digits: string
      | sign in {"", "+", "-"} && AllDigits(digits) && digits != "" && p == sign + digits
        && Number(digits) <= 15 && (sign == "-" ==> Number(digits) == 0)
      ensures PartOk(p)
    {
      SignedNumber(sign, digits);
    }
  }

  // ------------------------------------------------------------ the parser of physical addresses

  /** What parsing does to the stream and to the address: accepted tokens set it, others only set the fail bit. */
  function ParsePhysical(s: In, was: nat): (In, nat)
    requires s.Valid()
  {
    var (s', word) := ReadWord(s);
    if Accepted(word) then (s', Pack(Values(word))) else (s'.(fail := true), was)
  }

  /** The state of the loop when no part has been rejected yet: `len` good parts lie before the read position. */
  ghost predicate OnTrack(word: string, ss: In, val: seq<int>, len: nat) {
    && NoSpace(word) && ss.text == word && ss.Valid() && ss.Good()
    && |val| == 4 && len < |Parts(word)| && len < 4
    && Parts(word)[len..] == PartsFrom(word, ss.pos)
    && (forall i :: 0 <= i < len ==> PartOk(Parts(word)[i]) && val[i] == ValueOf(Parts(word)[i]))
    && (forall i :: len <= i < 4 ==> val[i] == 0)
  }

  lemma WordsHaveNoSpace(s: In)
    requires s.Valid()
    ensures var (after, word) := ReadWord(s); NoSpace(word) && (word == "" <==> after.fail)
  {
  }

  lemma StartOnTrack(s: In, val: seq<int>)
    requires s.Valid() && val == [0, 0, 0, 0]
    ensures var (after, word) := ReadWord(s);
            OnTrack(word, In(word, 0, false, false), val, 0) && (after.fail ==> !Accepted(word))
  {
    var (after, word) := ReadWord(s);
    if after.fail {
      assert FindDot(word, 0) == 0 && Parts(word) == [""];
      assert "" in Parts(word);
    }
  }

  /** Reading at a position sees the same number as reading the text up to a character that cannot belong to it. */
  lemma IntegerWithin(text: string, pos: nat, e: nat)
    requires pos <= e <= |text|
    requires e < |text| ==> !IsDigit(text[e]) && text[e] != '+' && text[e] != '-'
    ensures var n, m := IntegerAt(text, pos), IntegerAt(text[pos..e], 0);
            n.negative == m.negative && n.digits == m.digits && n.end == pos + m.end && Signed(n) == Signed(m)
  {
    hide SignEnd, IsDigit, AllDigits;
    var part := text[pos..e];
    var q := SignEnd(part, 0);
    SignWithin(text, pos, e);
    DigitsWithin(text, pos, e, q);
    SliceOfSlice(text, pos, e, q, DigitsEnd(part, q));
  }

  lemma DigitsWithin(text: string, pos: nat, e: nat, q: nat)
    requires pos <= e <= |text| && q <= e - pos && (e < |text| ==> !IsDigit(text[e]))
    ensures DigitsEnd(text, pos + q) == pos + DigitsEnd(text[pos..e], q)
  {
    hide IsDigit;
    var part := text[pos..e];
    var d := DigitsEnd(part, q);
    forall k | pos + q <= k < pos + d ensures IsDigit(text[k]) {
      assert text[k] == part[k - pos];
    }
    assert pos + d < |text| ==> !IsDigit(text[pos + d]) by {
      if d < |part| { assert text[pos + d] == part[d]; }
    }
    DigitsEndIs(text, pos + q, pos + d);
  }

  lemma SignWithin(text: string, pos: nat, e: nat)
    requires pos <= e <= |text|
    requires e < |text| ==> text[e] != '+' && text[e] != '-'
    ensures SignEnd(text, pos) == pos + SignEnd(text[pos..e], 0)
    ensures (pos < |text| && text[pos] == '-') <==> (text[pos..e] != "" && text[pos..e][0] == '-')
  {
    if pos < e {
      assert text[pos..e][0] == text[pos];
    }
  }

  /** What the number at a position of a word without spaces makes of a good stream. */
  lemma ReadIntAt(word: string, ss: In)
    requires NoSpace(word) && ss.text == word && ss.Valid() && ss.Good()
    ensures var (read, v) := ReadInt(ss, 0);
            var n := IntegerAt(word, ss.pos);
            && read.pos == n.end && (read.eof <==> n.end == |word|)
            && (n.digits == "" ==> read.fail)
            && (n.digits != "" && InRange(Signed(n)) ==> !read.fail)
            && (!read.fail ==> v == Signed(n))
  {
    if ss.pos < |word| {
      assert word[ss.pos] in word;
    }
  }

  lemma PartAt(word: string, ss: In, val: seq<int>, len: nat)
    requires OnTrack(word, ss, val, len)
    ensures Parts(word)[len] == word[ss.pos..FindDot(word, ss.pos)] && val[len] == 0
    ensures NoSpace(word) && ss.text == word && ss.Valid() && ss.Good()
  {
    hide PartOk, NoSpace, FindDot;
    assert Parts(word)[len] == Parts(word)[len..][0];
  }

  /** One round of the loop, up to the range check: a part is good exactly when its number is read to its end. */
  lemma PartRead(word: string, ss: In, val: seq<int>, len: nat)
    requires OnTrack(word, ss, val, len)
    ensures var (read, v) := ReadInt(ss, val[len]);
            var part, e := Parts(word)[len], FindDot(word, ss.pos);
            && read.text == word && read.Valid()
            && (PartOk(part) <==> !read.fail && InRange(v) && read.pos == e)
            && (PartOk(part) ==> v == ValueOf(part))
            && (!read.fail ==> ss.pos <= read.pos <= e && (read.eof <==> read.pos == |word|))
  {
    PartAt(word, ss, val, len);
    hide OnTrack, ReadInt, IntegerAt, Parts, Signed, AllDigits, NoSpace, FindDot;
    ReadIntAt(word, ss);
    IntegerWithin(word, ss.pos, FindDot(word, ss.pos));
  }

  predicate InRange(v: int) { 0 <= v <= 15 }

  /** The four ways a round can go, told from the bits, the value and the next character. */
  lemma RoundFacts(word: string, ss: In, val: seq<int>, len: nat)
    requires OnTrack(word, ss, val, len)
    ensures var (read, v) := ReadInt(ss, val[len]);
            var part, e := Parts(word)[len], FindDot(word, ss.pos);
            && read.text == word && read.pos <= |word|
            && (read.fail || !InRange(v) ==> !PartOk(part))
            && (!read.fail && InRange(v) ==>
                  && (read.eof <==> read.pos == |word|)
                  && (PartOk(part) <==> read.pos == |word| || word[read.pos] == '.')
                  && (PartOk(part) ==> v == ValueOf(part) && read.pos == e))
  {
    hide OnTrack, PartOk, ValueOf, ReadInt;
    PartRead(word, ss, val, len);
  }

  lemma RejectPart(word: string, ss: In, val: seq<int>, len: nat)
    requires OnTrack(word, ss, val, len) && !PartOk(Parts(word)[len])
    ensures !Accepted(word)
  {
    assert Parts(word)[len] in Parts(word);
  }

  /** A good part that ends the token. */
  lemma LastPart(word: string, ss: In, val: seq<int>, len: nat, v: int)
    requires OnTrack(word, ss, val, len) && FindDot(word, ss.pos) == |word|
    requires PartOk(Parts(word)[len]) && v == ValueOf(Parts(word)[len])
    ensures Accepted(word) && val[len := v] == Values(word)
  {
    assert Parts(word)[len..] == [Parts(word)[len]];
    assert |Parts(word)| == len + 1;
  }

  /** A good part with a dot behind it. */
  lemma PartsTail(word: string, ss: In, val: seq<int>, len: nat)
    requires OnTrack(word, ss, val, len) && FindDot(word, ss.pos) < |word|
    ensures var e, ps := FindDot(word, ss.pos), Parts(word);
            |ps| > len + 1 && ps[len + 1..] == PartsFrom(word, e + 1)
  {
    var e, ps := FindDot(word, ss.pos), Parts(word);
    assert ps[len..] == [word[ss.pos..e]] + PartsFrom(word, e + 1);
    assert ps[len + 1..] == ps[len..][1..];
  }

  lemma NextPart(word: string, ss: In, val: seq<int>, len: nat, v: int)
    requires OnTrack(word, ss, val, len) && FindDot(word, ss.pos) < |word| && len < 3
    requires PartOk(Parts(word)[len]) && v == ValueOf(Parts(word)[len])
    ensures OnTrack(word, In(word, FindDot(word, ss.pos) + 1, false, false), val[len := v], len + 1)
  {
    hide PartOk, ValueOf, Parts, PartsFrom, NoSpace;
    PartsTail(word, ss, val, len);
    var next := val[len := v];
    assert forall i :: 0 <= i < len ==> next[i] == val[i];
  }

  lemma TooManyParts(word: string, ss: In, val: seq<int>)
    requires OnTrack(word, ss, val, 3) && FindDot(word, ss.pos) < |word|
    ensures !Accepted(word)
  {
    PartsTail(word, ss, val, 3);
  }

  class IStream {
    var state: In

    constructor (state: In)
      ensures this.state == state
    {
      this.state := state;
    }
  }

  class PhysicalAddress {
    var address: nat

    constructor (address: nat)
      ensures this.address == address
    {
      this.address := address;
    }

    method Set(val: array<int>)
      requires val.Length == 4
      modifies this
      ensures address == Pack(val[..])
    {
      address := val[0] % 16 * 4096 + val[1] % 16 * 256 + val[2] % 16 * 16 + val[3] % 16;
    }
  }

  /** `in >> physical_address`. */
  method ReadPhysical(input: IStream, address: PhysicalAddress)
    requires input.state.Valid()
    modifies input, address
    ensures (input.state, address.address) == ParsePhysical(old(input.state), old(address.address))
  {
    hide OnTrack, Accepted, Values, PartOk, ReadInt, ReadWord, ValueOf, FindDot;
    var (after, s) := ReadWord(input.state);
    input.state := after;
    var ss := In(s, 0, false, false);
    var val := new int[4](_ => 0);
    var len := 0;
    var again := true;
    ghost var rejected := false;
    StartOnTrack(old(input.state), val[..]);
    while again
      invariant again ==> len < 4
      invariant len <= 4 && ss.Valid() && address.address == old(address.address)
      invariant if rejected then input.state == after.(fail := true) && !Accepted(s) else input.state == after
      invariant again && !rejected ==> OnTrack(s, ss, val[..], len)
      invariant !again && len < 4 && !rejected ==> Accepted(s) && val[..] == Values(s)
      invariant !again && len == 4 ==> !Accepted(s)
      decreases 4 - len, again
    {
      ghost var before, was := ss, val[..];
      var (read, v) := ReadInt(ss, val[len]);
      ss, val[len] := read, v;
      assert val[..] == was[len := v];
      if !rejected {
        RoundFacts(s, before, was, len);
      }
      if ss.fail || val[len] < 0 || val[len] > 15 {
        if !rejected { RejectPart(s, before, was, len); }
        input.state, again, rejected := input.state.(fail := true), false, true;
      } else {
        var (peeked, next) := Peek(ss);
        ss := peeked;
        if next == Some('.') {
          ss := Ignore(ss);
          if !rejected {
            if len < 3 { NextPart(s, before, was, len, v); } else { TooManyParts(s, before, was); }
          }
        } else if next.Some? {
          if !rejected { RejectPart(s, before, was, len); }
          input.state, rejected := input.state.(fail := true), true;
        } else if !rejected {
          LastPart(s, before, was, len, v);
        }
        again := !ss.eof;
        if again {
          len := len + 1;
          again := len < 4;
        }
      }
    }
    if len == 4 {
      input.state := input.state.(fail := true);
    } else if !input.state.fail {
      address.Set(val);
    }
  }

  // ------------------------------------------------------------ printing physical addresses

  /** `out << physical_address`. */
  function ShowPhysical(a: nat): string {
    Decimal(Nibble(a, 0)) + "." + Decimal(Nibble(a, 1)) + "." + Decimal(Nibble(a, 2)) + "." + Decimal(Nibble(a, 3))
  }

  predicate NoDot(s: string) { forall c | c in s :: c != '.' }

  lemma FindDotIs(s: string, pos: nat, e: nat)
    requires pos <= e <= |s| && (forall k :: pos <= k < e ==> s[k] != '.') && (e < |s| ==> s[e] == '.')
    ensures FindDot(s, pos) == e
  {
  }

  lemma {:induction false} PartsShift(before: string, s: string, pos: nat)
    requires pos <= |s|
    ensures PartsFrom(before + s, |before| + pos) == PartsFrom(s, pos)
    decreases |s| - pos
  {
    var e, whole := FindDot(s, pos), before + s;
    assert forall k :: 0 <= k < |s| ==> whole[|before| + k] == s[k];
    FindDotIs(whole, |before| + pos, |before| + e);
    SliceBehind(before, s, pos, e);
    if e < |s| {
      PartsShift(before, s, e + 1);
    }
  }

  lemma PartsOfJoin(p: string, q: string)
    requires NoDot(p)
    ensures Parts(p + "." + q) == [p] + Parts(q)
  {
    var whole := p + "." + q;
    forall k | 0 <= k < |p| ensures whole[k] != '.' {
      assert whole[k] == p[k] && p[k] in p;
    }
    FindDotIs(whole, 0, |p|);
    assert whole[0..|p|] == p;
    PartsShift(p + ".", q, 0);
  }

  lemma PartsOfOne(p: string)
    requires NoDot(p)
    ensures Parts(p) == [p]
  {
    forall k | 0 <= k < |p| ensures p[k] != '.' {
      assert p[k] in p;
    }
    FindDotIs(p, 0, |p|);
    assert p[0..|p|] == p;
  }

  /** A printed number is a part with that value, without dot and space. */
  lemma DecimalPart(n: nat)
    ensures PartValue(Decimal(n)) == Some(n) && NoDot(Decimal(n)) && NoSpace(Decimal(n))
  {
    var p := Decimal(n);
    assert p[0] in p;
    forall k | 0 <= k < |p| ensures IsDigit(p[k]) {
      assert p[k] in p;
    }
    DigitsEndIs(p, 0, |p|);
    assert p[0..|p|] == p;
    NumberOfDecimal(n);
  }

  lemma NoSpaceConcat(s: string, t: string)
    requires NoSpace(s) && NoSpace(t)
    ensures NoSpace(s + t)
  {
  }

  lemma FourParts(h: string, i: string, j: string, k: string)
    requires NoDot(h) && NoDot(i) && NoDot(j) && NoDot(k)
    ensures Parts(h + "." + i + "." + j + "." + k) == [h, i, j, k]
  {
    PartsOfOne(k);
    PartsOfJoin(j, k);
    PartsOfJoin(i, j + "." + k);
    PartsOfJoin(h, i + "." + (j + "." + k));
    Reassociated(h, i, j, k);
  }

  lemma Reassociated(h: string, i: string, j: string, k: string)
    ensures h + "." + i + "." + j + "." + k == h + "." + (i + "." + (j + "." + k))
  {
  }

  lemma FourWords(h: string, i: string, j: string, k: string)
    requires NoSpace(h) && NoSpace(i) && NoSpace(j) && NoSpace(k)
    ensures NoSpace(h + "." + i + "." + j + "." + k)
  {
    NoSpaceConcat(h, ".");
    NoSpaceConcat(h + ".", i);
    NoSpaceConcat(h + "." + i, ".");
    NoSpaceConcat(h + "." + i + ".", j);
    NoSpaceConcat(h + "." + i + "." + j, ".");
    NoSpaceConcat(h + "." + i + "." + j + ".", k);
  }

  lemma ShownParts(a: nat)
    ensures Parts(ShowPhysical(a)) ==
            [Decimal(Nibble(a, 0)), Decimal(Nibble(a, 1)), Decimal(Nibble(a, 2)), Decimal(Nibble(a, 3))]
    ensures NoSpace(ShowPhysical(a)) && IsDigit(ShowPhysical(a)[0])
  {
    hide Nibble, Parts, NoSpace, NoDot, PartValue;
    var h, i, j, k := Decimal(Nibble(a, 0)), Decimal(Nibble(a, 1)), Decimal(Nibble(a, 2)), Decimal(Nibble(a, 3));
    DecimalPart(Nibble(a, 0));
    DecimalPart(Nibble(a, 1));
    DecimalPart(Nibble(a, 2));
    DecimalPart(Nibble(a, 3));
    FourParts(h, i, j, k);
    FourWords(h, i, j, k);
    assert ShowPhysical(a)[0] == h[0] && h[0] in h;
  }

  lemma NibbleRange(a: nat, x: nat)
    requires x < 4
    ensures 0 <= Nibble(a, x) <= 15
  {
  }

  lemma ShownIsAccepted(a: nat)
    requires a < 0x1_0000
    ensures Accepted(ShowPhysical(a)) && Pack(Values(ShowPhysical(a))) == a
  {
    hide Nibble, ShowPhysical, Pack;
    ShownParts(a);
    forall x | 0 <= x < 4 ensures PartOk(Decimal(Nibble(a, x))) && ValueOf(Decimal(Nibble(a, x))) == Nibble(a, x) {
      DecimalPart(Nibble(a, x));
      NibbleRange(a, x);
    }
    assert Values(ShowPhysical(a)) == [Nibble(a, 0), Nibble(a, 1), Nibble(a, 2), Nibble(a, 3)];
    NibblesPacked(a);
  }

  lemma WordSpan(before: string, word: string, rest: string)
    requires NoSpace(word) && word != "" && (rest == "" || IsSpace(rest[0]))
    ensures var text, b, e := before + word + rest, |before|, |before| + |word|;
            !IsSpace(text[b]) && WordEnd(text, b) == e && text[b..e] == word
  {
    var text, b, e := before + word + rest, |before|, |before| + |word|;
    forall k | b <= k < e ensures !IsSpace(text[k]) {
      assert text[k] == word[k - b] && word[k - b] in word;
    }
    WordEndIs(text, b, e);
  }

  /** A word between the read position and a space or the end is read as it is. */
  lemma ReadWordInContext(before: string, word: string, rest: string)
    requires NoSpace(word) && word != "" && (rest == "" || IsSpace(rest[0]))
    ensures ReadWord(In(before + word + rest, |before|, false, false)) ==
            (In(before + word + rest, |before| + |word|, rest == "", false), word)
  {
    var text, b := before + word + rest, |before|;
    WordSpan(before, word, rest);
    hide WordEnd, NoSpace;
    assert SkipSpace(text, b) == b;
  }

  /** Round trip in context: for every address, whatever stands before, and any rest that cannot belong to it. */
  lemma PhysicalRoundTrip(before: string, a: nat, rest: string, was: nat)
    requires a < 0x1_0000 && (rest == "" || IsSpace(rest[0]))
    ensures var text := before + ShowPhysical(a) + rest;
            ParsePhysical(In(text, |before|, false, false), was) ==
            (In(text, |before| + |ShowPhysical(a)|, rest == "", false), a)
  {
    hide ShowPhysical, Accepted, Values, ReadWord;
    ShownParts(a);
    ShownIsAccepted(a);
    ReadWordInContext(before, ShowPhysical(a), rest);
  }

  /** Printing after parsing is an idempotent canonical form on all accepted tokens. */
  lemma PrintingIsCanonical(word: string)
    requires Accepted(word)
    ensures var canonical := ShowPhysical(Pack(Values(word)));
            Accepted(canonical) && Pack(Values(canonical)) == Pack(Values(word))
            && ShowPhysical(Pack(Values(canonical))) == canonical
  {
    ShownIsAccepted(Pack(Values(word)));
  }

  /** Success gives the left-justified nibbles: nibble i is the i-th part, or 0 when there is none. */
  lemma AcceptedNibbles(word: string, i: nat)
    requires Accepted(word) && i < 4
    ensures Nibble(Pack(Values(word)), i) == if i < |Parts(word)| then ValueOf(Parts(word)[i]) else 0
  {
    hide Nibble, Pack;
    PackedNibbles(Values(word));
    if i < |Parts(word)| {
      assert PartOk(Parts(word)[i]);
    }
  }

  // ------------------------------------------------------------ the language of addresses, written out

  /** An optional sign and at least one digit that denote a value in 0..15; only 0 can have a minus sign. */
  ghost predicate GoodPart(p: string, v: nat) {
    exists sign: string, digits: string ::
      && sign in {"", "+", "-"} && AllDigits(digits) && digits != "" && p == sign + digits
      && v == Number(digits) && v <= 15 && (sign == "-" ==> v == 0)
  }

  function Join(ps: seq<string>): string
    requires ps != []
  {
    if |ps| == 1 then ps[0] else ps[0] + "." + Join(ps[1..])
  }

  /** The word is one to four good parts with dots between them, and these are their values. */
  ghost predicate Spells(word: string, ps: seq<string>, vs: seq<nat>) {
    && 1 <= |ps| <= 4 && |vs| == |ps| && word == Join(ps)
    && forall i :: 0 <= i < |ps| ==> GoodPart(ps[i], vs[i])
  }

  lemma GoodPartIsOk(p: string, v: nat)
    requires GoodPart(p, v)
    ensures PartOk(p) && ValueOf(p) == v && NoDot(p)
  {
    var sign: string, digits: string :|
      && sign in {"", "+", "-"} && AllDigits(digits) && digits != "" && p == sign + digits
      && v == Number(digits) && v <= 15 && (sign == "-" ==> v == 0);
    SignedNumber(sign, digits);
    hide PartValue, Number;
    forall c | c in p ensures c != '.' {
      assert c in sign || c in digits;
    }
  }

  lemma OkPartIsGood(p: string)
    requires PartOk(p)
    ensures GoodPart(p, ValueOf(p))
  {
    PartLanguage(p);
    var sign: string, digits: string :|
      && sign in {"", "+", "-"} && AllDigits(digits) && digits != "" && p == sign + digits
      && Number(digits) <= 15 && (sign == "-" ==> Number(digits) == 0);
    SignedNumber(sign, digits);
    hide PartValue, Number;
  }

  lemma {:induction false} JoinOfParts(s: string, pos: nat)
    requires pos <= |s|
    ensures Join(PartsFrom(s, pos)) == s[pos..]
    decreases |s| - pos
  {
    hide Join, FindDot;
    var e := FindDot(s, pos);
    if e < |s| {
      JoinOfParts(s, e + 1);
      JoinCons(s[pos..e], PartsFrom(s, e + 1));
      CutAtDot(s, pos, e);
    } else {
      assert s[pos..e] == s[pos..];
      JoinOne(s[pos..e]);
    }
  }

  lemma JoinOne(p: string)
    ensures Join([p]) == p
  {
  }

  lemma JoinCons(p: string, ps: seq<string>)
    requires ps != []
    ensures Join([p] + ps) == p + "." + Join(ps)
  {
    assert ([p] + ps)[1..] == ps;
  }

  lemma CutAtDot(s: string, pos: nat, e: nat)
    requires pos <= e < |s| && s[e] == '.'
    ensures s[pos..] == s[pos..e] + "." + s[e + 1..]
  {
  }

  lemma {:induction false} PartsOfJoined(ps: seq<string>)
    requires ps != [] && forall p | p in ps :: NoDot(p)
    ensures Parts(Join(ps)) == ps
  {
    hide Parts;
    if |ps| == 1 {
      PartsOfOne(ps[0]);
    } else {
      PartsOfJoined(ps[1..]);
      PartsOfJoin(ps[0], Join(ps[1..]));
      assert [ps[0]] + ps[1..] == ps;
    }
  }

  lemma SpelledIsAccepted(word: string, ps: seq<string>, vs: seq<nat>)
    requires Spells(word, ps, vs)
    ensures Accepted(word) && Parts(word) == ps && forall i :: 0 <= i < |ps| ==> ValueOf(ps[i]) == vs[i]
  {
    hide GoodPart, PartOk, Parts, NoDot, ValueOf;
    forall i | 0 <= i < |ps| ensures PartOk(ps[i]) && ValueOf(ps[i]) == vs[i] && NoDot(ps[i]) {
      GoodPartIsOk(ps[i], vs[i]);
    }
    PartsOfJoined(ps);
  }

  lemma AcceptedIsSpelled(word: string)
    requires Accepted(word)
    ensures exists ps: seq<string>, vs: seq<nat> :: Spells(word, ps, vs)
  {
    hide GoodPart, PartOk, ValueOf;
    var ps := Parts(word);
    forall i | 0 <= i < |ps| ensures PartOk(ps[i]) && 0 <= ValueOf(ps[i]) && GoodPart(ps[i], ValueOf(ps[i])) {
      assert ps[i] in ps;
      OkValueInRange(ps[i]);
      OkPartIsGood(ps[i]);
    }
    var vs: seq<nat> := seq(|ps|, i requires 0 <= i < |ps| => ValueOf(ps[i]));
    JoinOfParts(word, 0);
    assert word[0..] == word;
    assert Spells(word, ps, vs);
  }

  lemma OkValueInRange(p: string)
    requires PartOk(p)
    ensures 0 <= ValueOf(p) <= 15
  {
  }

  /**
   * The parser of physical addresses on every good stream: it takes the next word, and succeeds exactly if that word
   * spells an address; nibble i is then the i-th value, or 0 when there is none. Otherwise the fail bit is set and
   * the address is as before.
   */
  lemma PhysicalLanguage(s: In, was: nat)
    requires s.Valid() && s.Good()
    ensures var (s', a) := ParsePhysical(s, was);
            var (read, word) := ReadWord(s);
            && (!s'.fail <==> exists ps: seq<string>, vs: seq<nat> :: Spells(word, ps, vs))
            && (forall ps: seq<string>, vs: seq<nat> :: Spells(word, ps, vs) ==>
                  && s' == read && a < 0x1_0000
                  && forall i :: 0 <= i < 4 ==> Nibble(a, i) == if i < |vs| then vs[i] else 0)
            && (s'.fail ==> s' == read.(fail := true) && a == was)
  {
    var (read, word) := ReadWord(s);
    StartOnTrack(s, [0, 0, 0, 0]);
    hide ReadWord, OnTrack, Spells, Nibble, Pack;
    if Accepted(word) {
      AcceptedIsSpelled(word);
      forall ps: seq<string>, vs: seq<nat> | Spells(word, ps, vs)
        ensures |vs| <= 4 && forall i :: 0 <= i < 4 ==>
                  Nibble(Pack(Values(word)), i) == if i < |vs| then vs[i] else 0
      {
        SpelledNibbles(word, ps, vs);
      }
    } else {
      forall ps: seq<string>, vs: seq<nat> ensures !Spells(word, ps, vs) {
        if Spells(word, ps, vs) {
          SpelledIsAccepted(word, ps, vs);
        }
      }
    }
  }

  lemma SpelledNibbles(word: string, ps: seq<string>, vs: seq<nat>)
    requires Spells(word, ps, vs) && Accepted(word)
    ensures |vs| <= 4
    ensures forall i :: 0 <= i < 4 ==> Nibble(Pack(Values(word)), i) == if i < |vs| then vs[i] else 0
  {
    SpelledIsAccepted(word, ps, vs);
    hide Nibble, Pack, Values, GoodPart, Parts;
    forall i | 0 <= i < 4 ensures Nibble(Pack(Values(word)), i) == if i < |vs| then vs[i] else 0 {
      AcceptedNibbles(word, i);
    }
  }

  /** A printed address is its four nibbles in decimal, the most significant first. */
  lemma PrintedForm(a: nat) returns (h: nat, i: nat, j: nat, k: nat)
    requires a < 0x1_0000
    ensures h < 16 && i < 16 && j < 16 && k < 16 && a == h * 0x1000 + i * 0x100 + j * 0x10 + k
    ensures ShowPhysical(a) == Join([Decimal(h), Decimal(i), Decimal(j), Decimal(k)])
  {
    h, i, j, k := Nibble(a, 0), Nibble(a, 1), Nibble(a, 2), Nibble(a, 3);
    NibblesPacked(a);
    PackOfNibbles([h, i, j, k]);
    var x, y, z, w := Decimal(h), Decimal(i), Decimal(j), Decimal(k);
    hide Nibble, Join;
    JoinOne(w);
    JoinCons(z, [w]);
    JoinCons(y, [z, w]);
    JoinCons(x, [y, z, w]);
    assert [z] + [w] == [z, w] && [y] + [z, w] == [y, z, w] && [x] + [y, z, w] == [x, y, z, w];
    Reassociated(x, y, z, w);
  }

  /** The next word of a stream: white space in front of it is skipped, and what follows it is left alone. */
  lemma WordBehindSpace(before: string, blanks: string, word: string, rest: string)
    requires (forall c | c in blanks :: IsSpace(c)) && NoSpace(word) && word != ""
    requires rest == "" || IsSpace(rest[0])
    ensures var text := before + blanks + word + rest;
            ReadWord(In(text, |before|, false, false)) ==
            (In(text, |before| + |blanks| + |word|, rest == "", false), word)
  {
    assert word[0] in word && (word + rest)[0] == word[0];
    WordSpan(before + blanks, word, rest);
    BlanksSkipped(before, blanks, word + rest);
    Associate(before + blanks, word, rest);
    hide WordEnd, SkipSpace, NoSpace, IsSpace, ReadWord;
    var p := |before| + |blanks|;
    ReadWordSpan(before + blanks + word + rest, |before|, p, p + |word|);
  }

  lemma ReadWordSpan(text: string, pos: nat, p: nat, q: nat)
    requires pos <= p < q <= |text| && SkipSpace(text, pos) == p && WordEnd(text, p) == q
    ensures ReadWord(In(text, pos, false, false)) == (In(text, q, q == |text|, false), text[p..q])
  {
    hide SkipSpace, WordEnd;
  }

  lemma BlanksSkipped(before: string, blanks: string, behind: string)
    requires (forall c | c in blanks :: IsSpace(c)) && (behind != "" ==> !IsSpace(behind[0]))
    ensures SkipSpace(before + blanks + behind, |before|) == |before| + |blanks|
  {
    var text, b := before + blanks + behind, |before|;
    forall k | b <= k < b + |blanks| ensures IsSpace(text[k]) {
      assert text[k] == blanks[k - b] && blanks[k - b] in blanks;
    }
    SkipSpaceIs(text, b, b + |blanks|);
  }

  lemma SkipSpaceIs(text: string, pos: nat, q: nat)
    requires pos <= q <= |text| && (forall k :: pos <= k < q ==> IsSpace(text[k]))
    requires q < |text| ==> !IsSpace(text[q])
    ensures SkipSpace(text, pos) == q
  {
  }
}
