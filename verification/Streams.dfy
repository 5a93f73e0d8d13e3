/**
 * The parts of C++ formatted input that the HDMI parsers rely on, as functions on a stream value: the
 * characters, the read position and the eof and fail bits. Integer extraction is libstdc++'s, in the C locale
 * with default flags, on 32-bit int and unsigned.
 */
module Streams {
  import opened Sequences

  datatype In = In(text: string, pos: nat, eof: bool, fail: bool) {
    predicate Valid() { pos <= |text| }
    predicate Good() { !eof && !fail }
  }

  predicate IsSpace(c: char) { c == ' ' || '\t' <= c <= '\r' }
  predicate IsDigit(c: char) { '0' <= c <= '9' }

  /** First position from `pos` on whose character is not a space. */
  function SkipSpace(text: string, pos: nat): (q: nat)
    requires pos <= |text|
    ensures pos <= q <= |text|
    ensures forall k :: pos <= k < q ==> IsSpace(text[k])
    ensures q < |text| ==> !IsSpace(text[q])
    decreases |text| - pos
  {
    if pos < |text| && IsSpace(text[pos]) then SkipSpace(text, pos + 1) else pos
  }

  function WordEnd(text: string, pos: nat): (q: nat)
    requires pos <= |text|
    ensures pos <= q <= |text|
    ensures forall k :: pos <= k < q ==> !IsSpace(text[k])
    ensures q < |text| ==> IsSpace(text[q])
    decreases |text| - pos
  {
    if pos < |text| && !IsSpace(text[pos]) then WordEnd(text, pos + 1) else pos
  }

  function DigitsEnd(text: string, pos: nat): (q: nat)
    requires pos <= |text|
    ensures pos <= q <= |text|
    ensures forall k :: pos <= k < q ==> IsDigit(text[k])
    ensures q < |text| ==> !IsDigit(text[q])
    decreases |text| - pos
  {
    if pos < |text| && IsDigit(text[pos]) then DigitsEnd(text, pos + 1) else pos
  }

  predicate AllDigits(s: string) { forall c | c in s :: IsDigit(c) }

  /** The number a string of decimal digits denotes. */
  function Number(digits: string): nat
    requires AllDigits(digits)
  {
    if digits == "" then 0
    else
      var n := |digits| - 1;
      assert digits[n] in digits;
      10 * Number(digits[..n]) + (digits[n] as int - '0' as int)
  }

  /** `in >> word` for a string. */
  function ReadWord(s: In): (r: (In, string))
    requires s.Valid()
    ensures r.0.Valid()
  {
    if !s.Good() then (s.(fail := true), "")
    else
      var p := SkipSpace(s.text, s.pos);
      var q := WordEnd(s.text, p);
      (In(s.text, q, q == |s.text|, p == q), s.text[p..q])
  }

  /** `in.peek()`; None is EOF. */
  function Peek(s: In): (r: (In, Option<char>))
    requires s.Valid()
    ensures r.0.Valid()
  {
    if !s.Good() then (s.(fail := true), None)
    else if s.pos < |s.text| then (s, Some(s.text[s.pos]))
    else (s.(eof := true), None)
  }

  /** `in.ignore()`. */
  function Ignore(s: In): In
    requires s.Valid()
  {
    if !s.Good() then s.(fail := true)
    else if s.pos < |s.text| then s.(pos := s.pos + 1)
    else s.(eof := true)
  }

  /** `in >> c` for a char, which keeps its old value when nothing can be read. */
  function ReadChar(s: In, was: char): (r: (In, char))
    requires s.Valid()
    ensures r.0.Valid()
  {
    if !s.Good() then (s.(fail := true), was)
    else
      var p := SkipSpace(s.text, s.pos);
      if p == |s.text| then (In(s.text, p, true, true), was) else (s.(pos := p + 1), s.text[p])
  }

  function SignEnd(text: string, pos: nat): (q: nat)
    requires pos <= |text|
    ensures pos <= q <= |text|
  {
    if pos < |text| && (text[pos] == '+' || text[pos] == '-') then pos + 1 else pos
  }

  /** The span an integer extraction consumes at a position: optional sign, then digits. */
  datatype Span = Span(negative: bool, digits: string, end: nat)

  function IntegerAt(text: string, pos: nat): (r: Span)
    requires pos <= |text|
    ensures pos <= r.end <= |text| && AllDigits(r.digits)
  {
    var q := SignEnd(text, pos);
    var d := DigitsEnd(text, q);
    Span(pos < |text| && text[pos] == '-', text[q..d], d)
  }

  function Signed(n: Span): int
    requires AllDigits(n.digits)
  {
    if n.negative then -(Number(n.digits) as int) else Number(n.digits)
  }

  /** `in >> i` for an int. */
  function ReadInt(s: In, was: int): (r: (In, int))
    requires s.Valid()
    ensures r.0.Valid() && r.0.text == s.text
  {
    if !s.Good() then (s.(fail := true), was)
    else
      var p := SkipSpace(s.text, s.pos);
      if p == |s.text| then (In(s.text, p, true, true), was)
      else
        var n := IntegerAt(s.text, p);
        var v := Signed(n);
        var atEnd := n.end == |s.text|;
        if n.digits == "" then (In(s.text, n.end, atEnd, true), 0)
        else if v > 0x7fff_ffff then (In(s.text, n.end, atEnd, true), 0x7fff_ffff)
        else if v < -0x8000_0000 then (In(s.text, n.end, atEnd, true), -0x8000_0000)
        else (In(s.text, n.end, atEnd, false), v)
  }

  /** `in >> u` for an unsigned: a minus sign negates modulo 2^32. */
  function ReadUnsigned(s: In, was: nat): (r: (In, nat))
    requires s.Valid()
    ensures r.0.Valid()
  {
    if !s.Good() then (s.(fail := true), was)
    else
      var p := SkipSpace(s.text, s.pos);
      if p == |s.text| then (In(s.text, p, true, true), was)
      else
        var n := IntegerAt(s.text, p);
        var v := Number(n.digits);
        var atEnd := n.end == |s.text|;
        if n.digits == "" then (In(s.text, n.end, atEnd, true), 0)
        else if v > 0xffff_ffff then (In(s.text, n.end, atEnd, true), 0xffff_ffff)
        else (In(s.text, n.end, atEnd, false), if n.negative then (0x1_0000_0000 - v) % 0x1_0000_0000 else v)
  }

  // ------------------------------------------------------------ printing

  /** `out << n` for a non-negative integer. */
  function Decimal(n: nat): (s: string)
    ensures s != "" && AllDigits(s)
  {
    var digit := ('0' as int + n % 10) as char;
    if n < 10 then [digit] else Decimal(n / 10) + [digit]
  }

  lemma NumberSnoc(digits: string, c: char)
    requires AllDigits(digits) && IsDigit(c)
    ensures AllDigits(digits + [c]) && Number(digits + [c]) == 10 * Number(digits) + (c as int - '0' as int)
  {
    var longer := digits + [c];
    assert longer[..|digits|] == digits;
  }

  function DigitOf(d: nat): char
    requires d < 10
  {
    ('0' as int + d) as char
  }

  lemma DigitOfMeans(d: nat)
    requires d < 10
    ensures IsDigit(DigitOf(d)) && DigitOf(d) as int - '0' as int == d
  {
  }

  lemma DecimalStep(n: nat)
    ensures Decimal(n) == if n < 10 then [DigitOf(n)] else Decimal(n / 10) + [DigitOf(n % 10)]
  {
  }

  lemma NoNumber()
    ensures AllDigits("") && Number("") == 0
  {
  }

  lemma {:induction false} NumberOfDecimal(n: nat)
    ensures Number(Decimal(n)) == n
  {
    DecimalStep(n);
    DigitOfMeans(n % 10);
    hide Decimal, DigitOf, Number, IsDigit, AllDigits;
    NoNumber();
    if n < 10 {
      NumberSnoc("", DigitOf(n));
      assert "" + [DigitOf(n)] == [DigitOf(n)];
    } else {
      NumberOfDecimal(n / 10);
      NumberSnoc(Decimal(n / 10), DigitOf(n % 10));
    }
  }

  lemma DigitsEndIs(text: string, pos: nat, q: nat)
    requires pos <= q <= |text| && (forall k :: pos <= k < q ==> IsDigit(text[k]))
    requires q < |text| ==> !IsDigit(text[q])
    ensures DigitsEnd(text, pos) == q
  {
  }

  lemma WordEndIs(text: string, pos: nat, q: nat)
    requires pos <= q <= |text| && (forall k :: pos <= k < q ==> !IsSpace(text[k]))
    requires q < |text| ==> IsSpace(text[q])
    ensures WordEnd(text, pos) == q
  {
  }

  /** The character classes, character by character. */
  lemma CharacterClasses(c: char)
    ensures IsDigit(c) <==> c in "0123456789"
    ensures IsSpace(c) <==> c in " \t\n\U{0B}\U{0C}\r"
  {
  }

  lemma DigitNumber(k: nat)
    requires k < 10
    ensures AllDigits(["0123456789"[k]]) && Number(["0123456789"[k]]) == k
  {
    NumberSnoc("", "0123456789"[k]);
    assert "" + ["0123456789"[k]] == ["0123456789"[k]];
  }

  /** No printed number but 0 begins with a zero. */
  lemma {:induction false} NoLeadingZero(n: nat)
    ensures Decimal(n)[0] == '0' ==> n == 0 && Decimal(n) == "0"
  {
    DecimalStep(n);
    hide Decimal;
    if n >= 10 {
      NoLeadingZero(n / 10);
      assert Decimal(n)[0] == Decimal(n / 10)[0];
    }
  }
}
