/**
 * The field scanners of water.parser.CSVParserKV: getDigit, parseInt and
 * parseFloat over a range of one in-memory byte array.  parseFloat records the
 * decimal digits and the decimal exponent of a number, not a binary
 * floating-point value.
 */
module CsvFields {
  import opened Wrappers

  /** A Java byte. */
  type Byte = b: int | -128 <= b < 128

  /** Java's (char) b: a negative byte is sign-extended into 0xFF80..0xFFFF. */
  function CharOf(b: Byte): (c: char)
    ensures b >= 0 ==> c as int == b
    ensures b < 0 ==> c as int == b + 0x1_0000
  {
    if b >= 0 then b as char else (b + 0x1_0000) as char
  }

  /** The characters of data[from..to], empty when the range is empty. */
  function Chars(data: seq<Byte>, lo: int, hi: int): (s: seq<char>)
    requires hi <= |data| && (lo < hi ==> 0 <= lo)
    ensures |s| == (if lo < hi then hi - lo else 0)
    decreases hi - lo
  {
    if lo >= hi then [] else Chars(data, lo, hi - 1) + [CharOf(data[hi - 1])]
  }

  lemma {:induction false} CharsAt(data: seq<Byte>, lo: int, hi: int, i: int)
    requires hi <= |data| && 0 <= lo <= i < hi
    ensures Chars(data, lo, hi)[i - lo] == CharOf(data[i])
    decreases hi - lo
  {
    var init := Chars(data, lo, hi - 1);
    assert Chars(data, lo, hi) == init + [CharOf(data[hi - 1])];
    if i < hi - 1 {
      CharsAt(data, lo, hi - 1, i);
      assert (init + [CharOf(data[hi - 1])])[i - lo] == init[i - lo];
    }
  }

  // ---------------------------------------------------------------------------
  // Character classes (java.lang.Character) on the characters a byte can become

  /** Character.isWhitespace. */
  predicate IsWhitespace(c: char) {
    var x := c as int;
    (9 <= x <= 13) || (28 <= x <= 32) || x == 0x1680 || x == 0x180E ||
    (0x2000 <= x <= 0x2006) || (0x2008 <= x <= 0x200A) ||
    x == 0x2028 || x == 0x2029 || x == 0x205F || x == 0x3000
  }

  /** Character.isDigit, for the characters (char) b produces: only '0'..'9'. */
  predicate IsDigit(c: char) {
    '0' <= c <= '9'
  }

  predicate IsUpper(c: char) {
    'A' <= c <= 'Z'
  }

  predicate IsLower(c: char) {
    'a' <= c <= 'z'
  }

  /**
   * The letters among 0xFF80..0xFFFF, the characters of negative bytes:
   * halfwidth katakana and halfwidth hangul.  They have no case.
   */
  predicate IsHighLetter(c: char) {
    var x := c as int;
    (0xFF80 <= x <= 0xFFBE) || (0xFFC2 <= x <= 0xFFC7) || (0xFFCA <= x <= 0xFFCF) ||
    (0xFFD2 <= x <= 0xFFD7) || (0xFFDA <= x <= 0xFFDC)
  }

  const MaxInt: int := 0x7FFF_FFFF

  /**
   * getDigit: the value of a digit or of a letter used as a digit, and
   * Integer.MAX_VALUE for anything else.  A value below 36 comes only from
   * '0'..'9', 'A'..'Z' and 'a'..'z'.
   */
  function GetDigit(c: char): (d: int)
    ensures IsDigit(c) ==> d == c as int - '0' as int
    ensures IsUpper(c) ==> d == 10 + (c as int - 'A' as int)
    ensures IsLower(c) ==> d == 10 + (c as int - 'a' as int)
    ensures !IsDigit(c) && !IsUpper(c) && !IsLower(c) && !IsHighLetter(c) ==> d == MaxInt
    ensures d >= 0
    ensures d < 36 <==> IsDigit(c) || IsUpper(c) || IsLower(c)
  {
    if IsDigit(c) then c as int - '0' as int
    else if IsUpper(c) then 10 + c as int - 'A' as int
    else if IsLower(c) || IsHighLetter(c) then 10 + c as int - 'a' as int
    else MaxInt
  }

  // ---------------------------------------------------------------------------
  // 32-bit integers

  const Modulus: int := 0x1_0000_0000

  /** The int that x becomes in 32-bit two's complement arithmetic. */
  function Wrap32(x: int): (r: int)
    ensures -0x8000_0000 <= r < 0x8000_0000
    ensures -0x8000_0000 <= x < 0x8000_0000 ==> r == x
  {
    (x + 0x8000_0000) % Modulus - 0x8000_0000
  }

  lemma WrapShift(x: int, k: int)
    ensures Wrap32(x + Modulus * k) == Wrap32(x)
  {
    var y := x + 0x8000_0000;
    assert (y + Modulus * k) % Modulus == y % Modulus;
  }

  /** Negating a wrapped value wraps the negation. */
  lemma WrapNegate(v: int)
    ensures Wrap32(-Wrap32(v)) == Wrap32(-v) && Wrap32(Wrap32(v)) == Wrap32(v)
  {
    WrapMulAdd(-1, v, 0);
    WrapMulAdd(1, v, 0);
  }

  /** Wrapping between the steps of r * v + d changes nothing. */
  lemma WrapMulAdd(r: int, v: int, d: int)
    ensures Wrap32(r * Wrap32(v) + d) == Wrap32(r * v + d)
  {
    var q := (v + 0x8000_0000) / Modulus;
    assert Wrap32(v) == v - Modulus * q;
    assert r * Wrap32(v) + d == r * v + d + Modulus * (-(r * q));
    WrapShift(r * v + d, -(r * q));
  }

  // ---------------------------------------------------------------------------
  // parseInt

  /** A character that parseInt skips (whitespace) or counts (a sign) before the digits. */
  predicate IsLead(c: char) {
    IsWhitespace(c) || c == '-'
  }

  /** A digit of the given radix that is not whitespace. */
  predicate IsRadixDigit(c: char, radix: int) {
    !IsWhitespace(c) && GetDigit(c) < radix
  }

  /** The length of the longest prefix of whitespace and '-'. */
  function LeadLength(s: seq<char>): (n: nat)
    ensures n <= |s|
  {
    if |s| == 0 || !IsLead(s[0]) then 0 else 1 + LeadLength(s[1..])
  }

  lemma {:induction false} LeadLengthEnds(s: seq<char>)
    ensures forall k :: 0 <= k < LeadLength(s) ==> IsLead(s[k])
    ensures LeadLength(s) < |s| ==> !IsLead(s[LeadLength(s)])
  {
    if |s| > 0 && IsLead(s[0]) {
      LeadLengthEnds(s[1..]);
    }
  }

  /** The length of the longest prefix of digits of the radix. */
  function DigitLength(s: seq<char>, radix: int): (n: nat)
    ensures n <= |s|
  {
    if |s| == 0 || !IsRadixDigit(s[0], radix) then 0 else 1 + DigitLength(s[1..], radix)
  }

  lemma {:induction false} DigitLengthEnds(s: seq<char>, radix: int)
    ensures forall k :: 0 <= k < DigitLength(s, radix) ==> IsRadixDigit(s[k], radix)
    ensures DigitLength(s, radix) < |s| ==> !IsRadixDigit(s[DigitLength(s, radix)], radix)
  {
    if |s| > 0 && IsRadixDigit(s[0], radix) {
      DigitLengthEnds(s[1..], radix);
    }
  }

  /** The number of '-' in s. */
  function Minuses(s: seq<char>): nat {
    if |s| == 0 then 0 else Minuses(s[..|s| - 1]) + (if s[|s| - 1] == '-' then 1 else 0)
  }

  function SignOf(s: seq<char>): int {
    if Minuses(s) % 2 == 0 then 1 else -1
  }

  /** v with the sign (1 or -1) applied. */
  function Signed(sign: int, v: int): int {
    if sign < 0 then -v else v
  }

  /** The value of a digit string in the radix, most significant digit first. */
  function DigitsValue(s: seq<char>, radix: int): int {
    if |s| == 0 then 0 else DigitsValue(s[..|s| - 1], radix) * radix + GetDigit(s[|s| - 1])
  }

  /**
   * What parseInt accepts and the int it yields: whitespace and minus signs,
   * then digits of the radix, then only whitespace.  Each minus sign flips the
   * sign; the result is computed in 32-bit arithmetic.
   */
  function IntField(s: seq<char>, radix: int): Option<int> {
    var p := LeadLength(s);
    var q := p + DigitLength(s[p..], radix);
    if forall k :: q <= k < |s| ==> IsWhitespace(s[k]) then
      Some(Wrap32(Signed(SignOf(s[..p]), DigitsValue(s[p..q], radix))))
    else None
  }

  /**
   * The state of parseInt after the first j characters of s: state 0 (only
   * whitespace and signs so far), 1 (in the digits) or 2 (after the digits).
   */
  ghost predicate IntScanned(s: seq<char>, radix: int, j: nat, state: int, sign: int, res: int)
    requires j <= |s|
  {
    var p := LeadLength(s);
    var q := p + DigitLength(s[p..], radix);
    0 <= state <= 2 &&
    (state == 0 ==> j <= p && res == 0 && sign == SignOf(s[..j])) &&
    (state != 0 ==> sign == SignOf(s[..p])) &&
    (state == 1 ==> p < j <= q && res == Wrap32(DigitsValue(s[p..j], radix))) &&
    (state == 2 ==> (q < j && res == Wrap32(DigitsValue(s[p..q], radix)) &&
       forall k :: q <= k < j ==> IsWhitespace(s[k])))
  }

  /**
   * parseInt(from, to, radix): scans data[from..to] with the three states
   * "before the digits", "in the digits" and "after the digits".  None stands
   * for a false return (the field then keeps its default).
   */
  method ParseInt(data: seq<Byte>, from: int, to: int, radix: int) returns (r: Option<int>)
    requires to <= |data| && (from < to ==> 0 <= from)
    ensures r == IntField(Chars(data, from, to), radix)
    ensures from >= to ==> r == Some(0)
  {
    ghost var s := Chars(data, from, to);
    var sign := 1;
    var res := 0;
    var state := 0;
    var i := from;
    ghost var j := 0;
    IntScannedStart(s, radix);
    while i < to
      invariant from <= i && (from < to ==> i <= to)
      invariant j == i - from && j <= |s|
      invariant IntScanned(s, radix, j, state, sign, res)
    {
      var ch := CharOf(data[i]);
      CharsAt(data, from, to, i);
      var fail;
      state, sign, res, fail := IntChar(s, radix, j, ch, state, sign, res);
      if fail {
        return None;
      }
      i, j := i + 1, j + 1;
    }
    assert j == |s|;
    r := IntEnd(s, radix, state, sign, res);
    if from >= to {
      IntFieldEmpty(s, radix);
    }
  }

  lemma IntScannedStart(s: seq<char>, radix: int)
    ensures IntScanned(s, radix, 0, 0, 1, 0)
  {
    SignOfEmpty(s[..0]);
  }

  /** An empty field is the integer 0. */
  lemma IntFieldEmpty(s: seq<char>, radix: int)
    requires |s| == 0
    ensures IntField(s, radix) == Some(0)
  {
    SignOfEmpty(s[..0]);
    DigitsValueEmpty(s[0..0], radix);
  }

  lemma SignOfEmpty(t: seq<char>)
    requires |t| == 0
    ensures SignOf(t) == 1
  {
  }

  lemma DigitsValueEmpty(t: seq<char>, radix: int)
    requires |t| == 0
    ensures DigitsValue(t, radix) == 0
  {
  }

  /** A single digit has its own value. */
  lemma DigitsValueSingle(c: char)
    ensures DigitsValue([c], 10) == GetDigit(c)
  {
    DigitsValueEmpty([c][..0], 10);
  }

  /** One character of parseInt's loop; `fail` is a false return. */
  method IntChar(ghost s: seq<char>, radix: int, ghost j: nat, ch: char, state: int, sign: int, res: int)
    returns (state': int, sign': int, res': int, fail: bool)
    requires j < |s| && s[j] == ch && IntScanned(s, radix, j, state, sign, res)
    ensures fail ==> IntField(s, radix) == None
    ensures !fail ==> IntScanned(s, radix, j + 1, state', sign', res')
  {
    state', sign', res', fail := state, sign, res, false;
    if state == 0 && IsWhitespace(ch) {
      LeadScanned(s, radix, j, sign);
    } else if state == 0 && ch == '-' {
      LeadScanned(s, radix, j, sign);
      sign' := -sign;
    } else if state == 0 || state == 1 {
      state' := 1;
      if IsWhitespace(ch) {
        DigitsEnd(s, radix, j, sign, res);
        state' := 2;
      } else {
        var d := GetDigit(ch);
        if d >= radix {
          DigitFails(s, radix, j, state, sign, res);
          return state', sign', res', true;
        }
        DigitScanned(s, radix, j, state, sign, res);
        res' := Wrap32(radix * res + d);
      }
    } else if !IsWhitespace(ch) {
      TrailFails(s, radix, j, sign, res);
      fail := true;
    } else {
      TrailScanned(s, radix, j, sign, res);
    }
  }

  lemma LeadScanned(s: seq<char>, radix: int, j: nat, sign: int)
    requires j < |s| && IsLead(s[j]) && IntScanned(s, radix, j, 0, sign, 0)
    ensures IntScanned(s, radix, j + 1, 0, if s[j] == '-' then -sign else sign, 0)
  {
    LeadLengthEnds(s);
    SignStep(s, j);
  }

  lemma DigitScanned(s: seq<char>, radix: int, j: nat, state: int, sign: int, res: int)
    requires j < |s| && (state == 0 || state == 1) && IntScanned(s, radix, j, state, sign, res)
    requires state == 0 ==> !IsLead(s[j])
    requires !IsWhitespace(s[j]) && GetDigit(s[j]) < radix
    ensures IntScanned(s, radix, j + 1, 1, sign, Wrap32(radix * res + GetDigit(s[j])))
  {
    var p := LeadLength(s);
    var q := p + DigitLength(s[p..], radix);
    LeadLengthEnds(s);
    DigitLengthEnds(s[p..], radix);
    if state == 0 {
      assert j == p;
      DigitsValueEmpty(s[p..j], radix);
    }
    assert s[p..][j - p] == s[j];
    DigitStep(s, radix, p, j, res);
  }

  lemma DigitsEnd(s: seq<char>, radix: int, j: nat, sign: int, res: int)
    requires j < |s| && IntScanned(s, radix, j, 1, sign, res) && IsWhitespace(s[j])
    ensures IntScanned(s, radix, j + 1, 2, sign, res)
  {
    var p := LeadLength(s);
    var q := p + DigitLength(s[p..], radix);
    DigitLengthEnds(s[p..], radix);
    assert s[p..][j - p] == s[j];
  }

  lemma DigitFails(s: seq<char>, radix: int, j: nat, state: int, sign: int, res: int)
    requires j < |s| && (state == 0 || state == 1) && IntScanned(s, radix, j, state, sign, res)
    requires state == 0 ==> !IsLead(s[j])
    requires !IsWhitespace(s[j]) && GetDigit(s[j]) >= radix
    ensures IntField(s, radix) == None
  {
    var p := LeadLength(s);
    var q := p + DigitLength(s[p..], radix);
    LeadLengthEnds(s);
    DigitLengthEnds(s[p..], radix);
    if state == 0 {
      assert j == p;
    }
    assert s[p..][j - p] == s[j];
  }

  lemma TrailScanned(s: seq<char>, radix: int, j: nat, sign: int, res: int)
    requires j < |s| && IntScanned(s, radix, j, 2, sign, res) && IsWhitespace(s[j])
    ensures IntScanned(s, radix, j + 1, 2, sign, res)
  {
  }

  lemma TrailFails(s: seq<char>, radix: int, j: nat, sign: int, res: int)
    requires j < |s| && IntScanned(s, radix, j, 2, sign, res) && !IsWhitespace(s[j])
    ensures IntField(s, radix) == None
  {
  }

  /** Appending one digit: the running 32-bit value follows the digit string's value. */
  lemma DigitStep(s: seq<char>, radix: int, p: nat, j: nat, res: int)
    requires p <= j < |s| && res == Wrap32(DigitsValue(s[p..j], radix))
    ensures Wrap32(radix * res + GetDigit(s[j])) == Wrap32(DigitsValue(s[p..j + 1], radix))
  {
    var t := s[p..j + 1];
    var v := DigitsValue(s[p..j], radix);
    assert t[..|t| - 1] == s[p..j];
    assert t[|t| - 1] == s[j];
    assert DigitsValue(t, radix) == v * radix + GetDigit(s[j]);
    WrapMulAdd(radix, v, GetDigit(s[j]));
    assert radix * v == v * radix;
  }

  /** The end of parseInt's loop: the sign applied in 32-bit arithmetic. */
  method IntEnd(ghost s: seq<char>, radix: int, state: int, sign: int, res: int) returns (r: Option<int>)
    requires IntScanned(s, radix, |s|, state, sign, res)
    ensures r == IntField(s, radix)
  {
    ghost var p := LeadLength(s);
    ghost var q := p + DigitLength(s[p..], radix);
    if state == 0 {
      DigitsValueEmpty(s[p..q], radix);
    }
    WrapNegate(DigitsValue(s[p..q], radix));
    if sign == 1 {
      assert sign * res == res;
    } else {
      assert sign * res == -res;
    }
    r := Some(Wrap32(sign * res));
  }

  lemma SignStep(s: seq<char>, j: nat)
    requires j < |s|
    ensures SignOf(s[..j + 1]) == if s[j] == '-' then -SignOf(s[..j]) else SignOf(s[..j])
  {
    assert s[..j + 1][..j] == s[..j];
  }

  // ---------------------------------------------------------------------------
  // parseFloat

  /** The states of parseFloat's scanner (0 to 5 in the code). */
  datatype FloatState = Start | LeadingZeros | IntegerPart | Fraction | Exponent | Trailing

  /**
   * What parseFloat has recorded so far: the sign, the decimal digits, the
   * decimal exponent, and the zeros after the decimal point held back until a
   * nonzero digit follows.
   */
  datatype FloatScan = FloatScan(state: FloatState, negative: bool, digits: seq<char>, decExp: int, zeros: nat)

  /** Scanning goes on, parseFloat returns `ok`, or it writes past the digit buffer. */
  datatype FloatOutcome = Going(scan: FloatScan) | Done(ok: bool, last: FloatScan) | Overflow

  const FloatStart := FloatScan(Start, false, [], 0, 0)

  function ZeroChars(n: nat): (z: seq<char>)
    ensures |z| == n && forall k :: 0 <= k < n ==> z[k] == '0'
  {
    if n == 0 then [] else ZeroChars(n - 1) + ['0']
  }

  /** Appends one digit to a buffer of `cap` characters, or overflows it. */
  function Append(sc: FloatScan, ch: char, cap: nat, state: FloatState): FloatOutcome {
    if |sc.digits| >= cap then Overflow
    else Going(sc.(digits := sc.digits + [ch], decExp := sc.decExp + 1, state := state))
  }

  /**
   * One character s[i] of parseFloat's loop with a digit buffer of `cap`
   * characters.  `asWritten` selects the code as it stands; otherwise the
   * leading-zero state moves on to the integer part at the first nonzero
   * digit, and held-back zeros are checked against the buffer before they are
   * written.
   */
  function FloatStep(sc: FloatScan, s: seq<char>, i: nat, cap: nat, asWritten: bool): FloatOutcome
    requires i < |s|
  {
    match sc.state
    case Start => StartChar(sc, s[i], cap)
    case LeadingZeros | IntegerPart => IntegerChar(sc, s[i], cap, asWritten)
    case Fraction => FractionChar(sc, s[i], cap, asWritten)
    case Exponent => ExponentChars(sc, s[i..])
    case Trailing =>
      if s[i] == ' ' || s[i] == '\t' then Going(sc) else Done(false, sc)
  }

  /** State 4: the rest of the field is the exponent, parsed by parseInt and added on success. */
  function ExponentChars(sc: FloatScan, rest: seq<char>): FloatOutcome {
    var e := IntField(rest, 10);
    Done(|sc.digits| > 0, if e.Some? then sc.(decExp := Wrap32(sc.decExp + e.value)) else sc)
  }

  /** State 0: signs, whitespace and a first digit or decimal point. */
  function StartChar(sc: FloatScan, ch: char, cap: nat): FloatOutcome {
    if ch == '.' then Going(sc.(state := Fraction))
    else if ch == '-' then Going(sc.(negative := !sc.negative))
    else if ch == '+' then Going(sc)
    else if ch == '0' then Append(sc, ch, cap, LeadingZeros)
    else if IsWhitespace(ch) then Going(sc)
    else if !IsDigit(ch) then Done(false, sc)
    else Append(sc, ch, cap, IntegerPart)
  }

  /** States 1 and 2: the integer part, where state 1 skips further leading zeros. */
  function IntegerChar(sc: FloatScan, ch: char, cap: nat, asWritten: bool): FloatOutcome {
    if sc.state == LeadingZeros && ch == '0' then Going(sc)
    else if ch == '.' then Going(sc.(state := Fraction))
    else if ch == 'e' || ch == 'E' then Going(sc.(state := Exponent))
    else if ch == ' ' || ch == '\t' then Going(sc.(state := Trailing))
    else if !IsDigit(ch) then Done(false, sc)
    else if |sc.digits| == cap then Done(false, sc)
    else Append(sc, ch, cap, if asWritten then sc.state else IntegerPart)
  }

  /** State 3: the fraction, holding back zeros until a nonzero digit. */
  function FractionChar(sc: FloatScan, ch: char, cap: nat, asWritten: bool): FloatOutcome {
    if ch == '0' then Going(sc.(zeros := sc.zeros + 1))
    else if ch == 'e' || ch == 'E' then Going(sc.(state := Exponent))
    else if IsWhitespace(ch) then Going(sc.(state := Trailing))
    else if !IsDigit(ch) then Done(false, sc)
    else if asWritten then
      if |sc.digits| + sc.zeros > cap then Overflow
      else
        var flushed := sc.(digits := sc.digits + ZeroChars(sc.zeros), zeros := 0);
        if |flushed.digits| == cap then Done(false, flushed)
        else Going(flushed.(digits := flushed.digits + [ch]))
    else if |sc.digits| + sc.zeros >= cap then Done(false, sc)
    else Going(sc.(digits := sc.digits + ZeroChars(sc.zeros) + [ch], zeros := 0))
  }

  /** parseFloat's loop from s[i] on; at the end it succeeds iff a digit was recorded. */
  function FloatRun(s: seq<char>, i: nat, sc: FloatScan, cap: nat, asWritten: bool): FloatOutcome
    requires i <= |s|
    decreases |s| - i
  {
    if i == |s| then Done(|sc.digits| > 0, sc)
    else
      match FloatStep(sc, s, i, cap, asWritten)
      case Going(next) => FloatRun(s, i + 1, next, cap, asWritten)
      case other => other
  }

  /** parseFloat on a field, as the code stands. */
  function FloatFieldAsWritten(s: seq<char>, cap: nat): FloatOutcome {
    FloatRun(s, 0, FloatStart, cap, true)
  }

  /** parseFloat on a field, with the two corrections. */
  function FloatField(s: seq<char>, cap: nat): FloatOutcome {
    FloatRun(s, 0, FloatStart, cap, false)
  }

  /** The digit buffer of parseFloat (FloatingDecimalWrapper's fields). */
  class FloatingDecimal {
    var isNegative: bool
    var nDigits: int
    var decExponent: int
    const digits: array<char>

    constructor (capacity: nat)
      ensures digits.Length == capacity && nDigits == 0 && decExponent == 0 && !isNegative
      ensures fresh(digits)
    {
      digits := new char[capacity](_ => '0');
      nDigits := 0;
      decExponent := 0;
      isNegative := false;
    }

    /** The recorded scan, with the scanner's own state and held-back zeros. */
    ghost function Scan(state: FloatState, zeros: nat): FloatScan
      reads this, digits
      requires 0 <= nDigits <= digits.Length
    {
      FloatScan(state, isNegative, digits[..nDigits], decExponent, zeros)
    }

    /** Records one digit. */
    method Push(ch: char)
      requires 0 <= nDigits < digits.Length
      modifies this, digits
      ensures nDigits == old(nDigits) + 1
      ensures digits[..nDigits] == old(digits[..nDigits]) + [ch]
      ensures isNegative == old(isNegative) && decExponent == old(decExponent)
    {
      digits[nDigits] := ch;
      nDigits := nDigits + 1;
    }

    /** The loop that writes the held-back zeros. */
    method FlushZeros(count: nat)
      requires 0 <= nDigits && nDigits + count <= digits.Length
      modifies this, digits
      ensures nDigits == old(nDigits) + count
      ensures digits[..nDigits] == old(digits[..nDigits]) + ZeroChars(count)
      ensures isNegative == old(isNegative) && decExponent == old(decExponent)
    {
      var z := count;
      while z > 0
        invariant 0 <= z <= count && nDigits == old(nDigits) + (count - z)
        invariant digits[..nDigits] == old(digits[..nDigits]) + ZeroChars(count - z)
        invariant isNegative == old(isNegative) && decExponent == old(decExponent)
      {
        Push('0');
        z := z - 1;
      }
    }
  }

  lemma CharsSuffix(data: seq<Byte>, from: int, to: int, i: int)
    requires to <= |data| && 0 <= from <= i <= to
    ensures Chars(data, from, to)[i - from..] == Chars(data, i, to)
  {
  }

  /**
   * parseFloat(from, to): records the sign, the decimal digits and the decimal
   * exponent of data[from..to] into the buffer `fd`; the answer is whether the
   * field is a number.  This follows the corrected code (see FloatStep).
   */
  method ParseFloat(fd: FloatingDecimal, data: seq<Byte>, from: int, to: int)
    returns (ok: bool, ghost endState: FloatState, ghost endZeros: nat)
    requires to <= |data| && (from < to ==> 0 <= from) && fd.digits.Length >= 1
    modifies fd, fd.digits
    ensures 0 <= fd.nDigits <= fd.digits.Length
    ensures FloatField(Chars(data, from, to), fd.digits.Length) == Done(ok, fd.Scan(endState, endZeros))
  {
    ghost var s := Chars(data, from, to);
    ghost var cap := fd.digits.Length;
    fd.isNegative := false;
    fd.nDigits := 0;
    fd.decExponent := 0;
    var zeros := 0;
    var state := Start;
    var i := from;
    ghost var j := 0;
    ghost var out := FloatField(s, cap);
    ghost var sc := fd.Scan(state, zeros);
    while i < to
      invariant from <= i && (from < to ==> i <= to) && j == i - from && j <= |s|
      invariant 0 <= fd.nDigits <= cap && (state == Start ==> fd.nDigits == 0)
      invariant sc == fd.Scan(state, zeros) && FloatRun(s, j, sc, cap, false) == out
    {
      CharsSuffix(data, from, to, i);
      var stop;
      state, zeros, stop, ok := FloatPass(fd, s, j, data, i, to, state, zeros);
      if stop {
        return ok, state, zeros;
      }
      i, j := i + 1, j + 1;
      sc := fd.Scan(state, zeros);
    }
    ok := fd.nDigits > 0;
    endState, endZeros := state, zeros;
  }

  /** One pass of parseFloat's loop, stated as FloatRun moving one character on or ending. */
  method FloatPass(fd: FloatingDecimal, ghost s: seq<char>, ghost j: nat, data: seq<Byte>, i: int, to: int,
                   state: FloatState, zeros: nat)
    returns (state': FloatState, zeros': nat, stop: bool, ok: bool)
    requires 0 <= i < to <= |data| && j < |s| && s[j..] == Chars(data, i, to)
    requires 0 <= fd.nDigits <= fd.digits.Length && fd.digits.Length >= 1
    requires state == Start ==> fd.nDigits == 0
    modifies fd, fd.digits
    ensures 0 <= fd.nDigits <= fd.digits.Length && (state' == Start ==> fd.nDigits == 0)
    ensures stop ==> FloatRun(s, j, old(fd.Scan(state, zeros)), fd.digits.Length, false) == Done(ok, fd.Scan(state', zeros'))
    ensures !stop ==> (FloatRun(s, j, old(fd.Scan(state, zeros)), fd.digits.Length, false) ==
                       FloatRun(s, j + 1, fd.Scan(state', zeros'), fd.digits.Length, false))
  {
    ghost var before := fd.Scan(state, zeros);
    state', zeros', stop, ok := FloatChar(fd, s, j, data, i, to, state, zeros);
    FloatRunStep(s, j, before, fd.Scan(state', zeros'), fd.digits.Length, stop, ok);
  }

  /** One pass of the loop moves FloatRun one character on, or ends it. */
  lemma FloatRunStep(s: seq<char>, i: nat, before: FloatScan, after: FloatScan, cap: nat, stop: bool, ok: bool)
    requires i < |s|
    requires var out := FloatStep(before, s, i, cap, false);
      if stop then out == Done(ok, after) else out == Going(after)
    ensures stop ==> FloatRun(s, i, before, cap, false) == Done(ok, after)
    ensures !stop ==> FloatRun(s, i, before, cap, false) == FloatRun(s, i + 1, after, cap, false)
  {
  }

  /**
   * One pass of parseFloat's loop on the character at data[i] (= s[j]); `stop`
   * says the method returns `ok` there.
   */
  method FloatChar(fd: FloatingDecimal, ghost s: seq<char>, ghost j: nat, data: seq<Byte>, i: int, to: int,
                   state: FloatState, zeros: nat)
    returns (state': FloatState, zeros': nat, stop: bool, ok: bool)
    requires 0 <= i < to <= |data| && j < |s| && s[j..] == Chars(data, i, to)
    requires 0 <= fd.nDigits <= fd.digits.Length && fd.digits.Length >= 1
    requires state == Start ==> fd.nDigits == 0
    modifies fd, fd.digits
    ensures 0 <= fd.nDigits <= fd.digits.Length && (state' == Start ==> fd.nDigits == 0)
    ensures var out := FloatStep(old(fd.Scan(state, zeros)), s, j, fd.digits.Length, false);
      if stop then out == Done(ok, fd.Scan(state', zeros')) else out == Going(fd.Scan(state', zeros'))
  {
    CharsAt(data, i, to, i);
    assert s[j] == s[j..][0];
    var ch := CharOf(data[i]);
    state', zeros', stop, ok := state, zeros, false, false;
    match state
    case Start =>
      if ch == '.' {
        state' := Fraction;
      } else if ch == '-' {
        fd.isNegative := !fd.isNegative;
      } else if ch == '+' {
      } else if ch == '0' {
        fd.Push(ch);
        fd.decExponent := fd.decExponent + 1;
        state' := LeadingZeros;
      } else if IsWhitespace(ch) {
      } else if !IsDigit(ch) {
        stop := true;
      } else {
        fd.Push(ch);
        fd.decExponent := fd.decExponent + 1;
        state' := IntegerPart;
      }
    case LeadingZeros | IntegerPart =>
      if state == LeadingZeros && ch == '0' {
      } else if ch == '.' {
        state' := Fraction;
      } else if ch == 'e' || ch == 'E' {
        state' := Exponent;
      } else if ch == ' ' || ch == '\t' {
        state' := Trailing;
      } else if !IsDigit(ch) || fd.nDigits == fd.digits.Length {
        stop := true;
      } else {
        fd.Push(ch);
        fd.decExponent := fd.decExponent + 1;
        state' := IntegerPart;
      }
    case Fraction =>
      if ch == '0' {
        zeros' := zeros + 1;
      } else if ch == 'e' || ch == 'E' {
        state' := Exponent;
      } else if IsWhitespace(ch) {
        state' := Trailing;
      } else if !IsDigit(ch) || fd.nDigits + zeros >= fd.digits.Length {
        stop := true;
      } else {
        fd.FlushZeros(zeros);
        fd.Push(ch);
        zeros' := 0;
      }
    case Exponent =>
      var e := ParseInt(data, i, to, 10);
      if e.Some? {
        fd.decExponent := Wrap32(fd.decExponent + e.value);
      }
      stop, ok := true, fd.nDigits > 0;
    case Trailing =>
      if ch != ' ' && ch != '\t' {
        stop := true;
      }
  }

  // ---------------------------------------------------------------------------
  // What the scanners compute

  predicate AllDigits(t: seq<char>) {
    forall k :: 0 <= k < |t| ==> IsDigit(t[k])
  }

  function Pow10(n: nat): (p: nat)
    ensures p >= 1
  {
    if n == 0 then 1 else 10 * Pow10(n - 1)
  }

  lemma DigitsValueSnoc(t: seq<char>, c: char, radix: int)
    ensures DigitsValue(t + [c], radix) == DigitsValue(t, radix) * radix + GetDigit(c)
  {
    assert (t + [c])[..|t|] == t;
  }

  lemma {:induction false} DigitsValueBounds(t: seq<char>)
    requires AllDigits(t)
    ensures 0 <= DigitsValue(t, 10) < Pow10(|t|)
  {
    if |t| > 0 {
      DigitsValueBounds(t[..|t| - 1]);
    }
  }

  lemma {:induction false} DigitLengthAll(t: seq<char>)
    requires AllDigits(t)
    ensures DigitLength(t, 10) == |t|
  {
    if |t| > 0 {
      assert AllDigits(t[1..]);
      DigitLengthAll(t[1..]);
    }
  }

  /**
   * A field of one to nine decimal digits is read as its exact value (no
   * 32-bit wrap-around can occur).
   */
  lemma IntFieldDecimal(d: seq<char>)
    requires 1 <= |d| <= 9 && AllDigits(d)
    ensures IntField(d, 10) == Some(DigitsValue(d, 10))
  {
    NineDigitsFit(d);
    DigitLengthAll(d);
    IntFieldUnsigned(d);
  }

  /** One minus sign followed by such digits is read as the negated value. */
  lemma IntFieldNegative(s: seq<char>)
    requires 2 <= |s| <= 10 && s[0] == '-' && AllDigits(s[1..])
    ensures IntField(s, 10) == Some(-DigitsValue(s[1..], 10))
  {
    var v := DigitsValue(s[1..], 10);
    NineDigitsFit(s[1..]);
    assert Wrap32(-v) == -v;
    DigitLengthAll(s[1..]);
    IntFieldMinus(s);
  }

  /** At most nine decimal digits fit a 32-bit int. */
  lemma NineDigitsFit(d: seq<char>)
    requires |d| <= 9 && AllDigits(d)
    ensures 0 <= DigitsValue(d, 10) < 1_000_000_000
  {
    DigitsValueBounds(d);
    Pow10Monotone(|d|, 9);
    Pow10Nine();
  }

  lemma Pow10Nine()
    ensures Pow10(9) == 1_000_000_000
  {
    Pow10Add(3, 3);
    Pow10Add(6, 3);
    assert Pow10(3) == 1000;
  }

  /** A field that is all signs and whitespace, then all digits. */
  lemma IntFieldWhole(s: seq<char>, radix: int, p: nat)
    requires p == LeadLength(s) && DigitLength(s[p..], radix) == |s| - p
    ensures IntField(s, radix) == Some(Wrap32(Signed(SignOf(s[..p]), DigitsValue(s[p..], radix))))
  {
    assert s[p..p + DigitLength(s[p..], radix)] == s[p..];
  }

  lemma IntFieldUnsigned(d: seq<char>)
    requires 1 <= |d| && DigitLength(d, 10) == |d|
    ensures IntField(d, 10) == Some(Wrap32(DigitsValue(d, 10)))
  {
    assert LeadLength(d) == 0;
    assert d[0..] == d;
    IntFieldWhole(d, 10, 0);
    SignOfEmpty(d[..0]);
  }

  lemma IntFieldMinus(s: seq<char>)
    requires 2 <= |s| && s[0] == '-' && DigitLength(s[1..], 10) == |s| - 1
    ensures IntField(s, 10) == Some(Wrap32(-DigitsValue(s[1..], 10)))
  {
    assert LeadLength(s[1..]) == 0;
    assert LeadLength(s) == 1;
    IntFieldWhole(s, 10, 1);
    assert s[..1] == ['-'];
    SignOfMinus();
  }

  lemma SignOfMinus()
    ensures SignOf(['-']) == -1
  {
    var m := ['-'];
    assert Minuses(m) == Minuses(m[..0]) + 1;
  }

  lemma {:induction false} Pow10Add(m: nat, n: nat)
    ensures Pow10(m + n) == Pow10(m) * Pow10(n)
  {
    if n > 0 {
      Pow10Add(m, n - 1);
      assert Pow10(m + n) == 10 * Pow10(m + n - 1);
    }
  }

  lemma {:induction false} Pow10Monotone(m: nat, n: nat)
    requires m <= n
    ensures Pow10(m) <= Pow10(n)
  {
    if m < n {
      Pow10Monotone(m, n - 1);
    }
  }

  /** The corrected parseFloat never writes past its digit buffer. */
  lemma FloatNeverOverflows(s: seq<char>, cap: nat)
    requires cap >= 1
    ensures !FloatField(s, cap).Overflow?
  {
    FloatRunBounded(s, 0, FloatStart, cap);
  }

  ghost predicate Bounded(sc: FloatScan, cap: nat) {
    |sc.digits| <= cap && (sc.state == Start ==> sc.digits == [])
  }

  lemma FloatStepBounded(sc: FloatScan, s: seq<char>, i: nat, cap: nat)
    requires i < |s| && cap >= 1 && Bounded(sc, cap)
    ensures !FloatStep(sc, s, i, cap, false).Overflow?
    ensures FloatStep(sc, s, i, cap, false).Going? ==> Bounded(FloatStep(sc, s, i, cap, false).scan, cap)
  {
  }

  lemma {:induction false} FloatRunBounded(s: seq<char>, i: nat, sc: FloatScan, cap: nat)
    requires i <= |s| && cap >= 1 && Bounded(sc, cap)
    ensures !FloatRun(s, i, sc, cap, false).Overflow?
    decreases |s| - i
  {
    if i < |s| {
      FloatStepBounded(sc, s, i, cap);
      if FloatStep(sc, s, i, cap, false).Going? {
        FloatRunBounded(s, i + 1, FloatStep(sc, s, i, cap, false).scan, cap);
      }
    }
  }

  lemma {:induction false} DigitsValueZeros(t: seq<char>, z: nat)
    ensures DigitsValue(t + ZeroChars(z), 10) == DigitsValue(t, 10) * Pow10(z)
  {
    if z == 0 {
      assert t + ZeroChars(0) == t;
    } else {
      var u := t + ZeroChars(z - 1);
      assert t + ZeroChars(z) == u + ['0'];
      DigitsValueSnoc(u, '0', 10);
      DigitsValueZeros(t, z - 1);
      assert Pow10(z) == 10 * Pow10(z - 1);
      MulTen(DigitsValue(t, 10), Pow10(z - 1));
    }
  }

  /** After the integer digits t: the recorded digits have t's value and the exponent counts them. */
  ghost predicate IntegerScanned(sc: FloatScan, t: seq<char>) {
    (sc.state == LeadingZeros || sc.state == IntegerPart) && !sc.negative && sc.zeros == 0 &&
    sc.decExp == |sc.digits| && 1 <= |sc.digits| <= |t| &&
    DigitsValue(sc.digits, 10) == DigitsValue(t, 10) &&
    (sc.state == LeadingZeros ==> sc.digits == ['0'])
  }

  lemma {:induction false} IntegerRun(s: seq<char>, n: nat, i: nat, sc: FloatScan, cap: nat) returns (last: FloatScan)
    requires 1 <= i <= n <= |s| && n <= cap && AllDigits(s[..n]) && IntegerScanned(sc, s[..i])
    ensures IntegerScanned(last, s[..n])
    ensures FloatRun(s, i, sc, cap, false) == FloatRun(s, n, last, cap, false)
    decreases n - i
  {
    if i == n {
      return sc;
    }
    var c := s[i];
    assert s[..n][i] == c;
    assert s[..i + 1] == s[..i] + [c];
    var next := IntegerStep(s, i, sc, s[..i], cap);
    last := IntegerRun(s, n, i + 1, next, cap);
  }

  /** One integer digit. */
  lemma IntegerStep(s: seq<char>, i: nat, sc: FloatScan, t: seq<char>, cap: nat) returns (next: FloatScan)
    requires i < |s| && IsDigit(s[i]) && |t| < cap && IntegerScanned(sc, t)
    ensures FloatStep(sc, s, i, cap, false) == Going(next)
    ensures IntegerScanned(next, t + [s[i]])
  {
    DigitsValueSnoc(t, s[i], 10);
    if sc.state == LeadingZeros && s[i] == '0' {
      next := sc;
      LeadingZero(sc, t);
    } else {
      next := IntegerAppend(sc, s[i], t, cap);
    }
  }

  /** A further leading zero is skipped. */
  lemma LeadingZero(sc: FloatScan, t: seq<char>)
    requires IntegerScanned(sc, t) && sc.state == LeadingZeros
    requires DigitsValue(t + ['0'], 10) == DigitsValue(t, 10) * 10
    ensures IntegerScanned(sc, t + ['0'])
  {
    DigitsValueSingle('0');
  }

  /** Any other digit is recorded and raises the exponent. */
  lemma IntegerAppend(sc: FloatScan, c: char, t: seq<char>, cap: nat) returns (next: FloatScan)
    requires IntegerScanned(sc, t) && IsDigit(c) && |t| < cap && !(sc.state == LeadingZeros && c == '0')
    requires DigitsValue(t + [c], 10) == DigitsValue(t, 10) * 10 + GetDigit(c)
    ensures IntegerChar(sc, c, cap, false) == Going(next)
    ensures IntegerScanned(next, t + [c])
  {
    next := sc.(digits := sc.digits + [c], decExp := sc.decExp + 1, state := IntegerPart);
    DigitsValueSnoc(sc.digits, c, 10);
    if sc.state == LeadingZeros {
      DigitsValueSingle('0');
    }
  }

  /** The first digit of a field. */
  lemma FirstDigit(s: seq<char>, cap: nat) returns (sc: FloatScan)
    requires 1 <= |s| && 1 <= cap && IsDigit(s[0])
    ensures IntegerScanned(sc, s[..1])
    ensures FloatStep(FloatStart, s, 0, cap, false) == Going(sc)
  {
    sc := FloatScan(if s[0] == '0' then LeadingZeros else IntegerPart, false, [s[0]], 1, 0);
    assert s[..1] == [s[0]];
    DigitsValueSingle(s[0]);
  }

  /**
   * After the decimal point and k fraction digits, w being all digits read:
   * the recorded digits followed by the held-back zeros have w's value, and
   * the digits after the decimal point number k.
   */
  ghost predicate FractionScanned(sc: FloatScan, w: seq<char>, k: nat) {
    sc.state == Fraction && !sc.negative && |sc.digits| >= 1 &&
    DigitsValue(sc.digits, 10) * Pow10(sc.zeros) == DigitsValue(w, 10) &&
    |sc.digits| + sc.zeros <= |w| && |sc.digits| + sc.zeros - sc.decExp == k
  }

  lemma {:induction false} FractionRun(s: seq<char>, start: nat, i: nat, sc: FloatScan, w: seq<char>, cap: nat)
    returns (last: FloatScan)
    requires start <= i <= |s| && AllDigits(s[start..]) && |w| + (|s| - i) <= cap
    requires FractionScanned(sc, w, i - start)
    ensures FloatRun(s, i, sc, cap, false) == Done(true, last)
    ensures FractionScanned(last, w + s[i..], |s| - start)
    decreases |s| - i
  {
    if i == |s| {
      assert w + s[i..] == w;
      return sc;
    }
    var c := s[i];
    assert s[start..][i - start] == c;
    assert w + s[i..] == (w + [c]) + s[i + 1..];
    var next := FractionDigit(s, i, sc, w, i - start, cap);
    last := FractionRun(s, start, i + 1, next, w + [c], cap);
  }

  /** One fraction digit. */
  lemma FractionDigit(s: seq<char>, i: nat, sc: FloatScan, w: seq<char>, k: nat, cap: nat) returns (next: FloatScan)
    requires i < |s| && IsDigit(s[i]) && |w| < cap && FractionScanned(sc, w, k)
    ensures FloatStep(sc, s, i, cap, false) == Going(next)
    ensures FractionScanned(next, w + [s[i]], k + 1)
  {
    var c := s[i];
    DigitsValueSnoc(w, c, 10);
    var v := DigitsValue(sc.digits, 10);
    if c == '0' {
      next := sc.(zeros := sc.zeros + 1);
      MulTen(v, Pow10(sc.zeros));
    } else {
      assert !IsWhitespace(c) && c != 'e' && c != 'E';
      next := sc.(digits := sc.digits + ZeroChars(sc.zeros) + [c], zeros := 0);
      DigitsValueSnoc(sc.digits + ZeroChars(sc.zeros), c, 10);
      DigitsValueZeros(sc.digits, sc.zeros);
    }
  }

  lemma MulTen(a: int, b: int)
    ensures a * (10 * b) == (a * b) * 10
  {
  }

  /**
   * The corrected parseFloat reads "d.f" (decimal digit strings, d nonempty,
   * fitting the buffer) as d.f: the recorded digits followed by the held-back
   * zeros have the value of the digits d f, and |f| of them come after the
   * decimal point, so the number is digits * 10^(decExp - |digits|) = d.f.
   */
  lemma FloatDecimal(d: seq<char>, f: seq<char>, cap: nat)
    requires 1 <= |d| && AllDigits(d) && AllDigits(f) && |d| + |f| <= cap
    ensures var out := FloatField(d + ['.'] + f, cap);
      out.Done? && out.ok && !out.last.negative &&
      DigitsValue(out.last.digits, 10) * Pow10(out.last.zeros) == DigitsValue(d + f, 10) &&
      |out.last.digits| + out.last.zeros - out.last.decExp == |f|
  {
    var s := d + ['.'] + f;
    assert s[..|d|] == d && s[|d|] == '.' && s[|d| + 1..] == f;
    var sc1 := FirstDigit(s, cap);
    assert s[..|d|][..1] == s[..1];
    var sc2 := IntegerRun(s, |d|, 1, sc1, cap);
    var sc3 := sc2.(state := Fraction);
    assert FloatStep(sc2, s, |d|, cap, false) == Going(sc3);
    assert |d| + (|s| - (|d| + 1)) == |d| + |f|;
    var last := FractionRun(s, |d| + 1, |d| + 1, sc3, d, cap);
    assert FloatField(s, cap) == Done(true, last);
  }

  /** The corrected parseFloat reads a decimal integer field as its value, exponent |digits|. */
  lemma FloatInteger(d: seq<char>, cap: nat)
    requires 1 <= |d| <= cap && AllDigits(d)
    ensures var out := FloatField(d, cap);
      out.Done? && out.ok && !out.last.negative && out.last.zeros == 0 &&
      DigitsValue(out.last.digits, 10) == DigitsValue(d, 10) && out.last.decExp == |out.last.digits|
  {
    var sc1 := FirstDigit(d, cap);
    assert d[..|d|] == d;
    var last := IntegerRun(d, |d|, 1, sc1, cap);
  }

  /** A run of integer digits that starts with a nonzero digit records every one of them. */
  lemma {:induction false} IntegerDigitsRun(s: seq<char>, n: nat, i: nat, cap: nat)
    requires 1 <= i <= n <= |s| && n <= cap && AllDigits(s[..n])
    ensures FloatRun(s, i, FloatScan(IntegerPart, false, s[..i], i, 0), cap, false) ==
      FloatRun(s, n, FloatScan(IntegerPart, false, s[..n], n, 0), cap, false)
    decreases n - i
  {
    if i < n {
      assert s[..n][i] == s[i];
      assert s[..i + 1] == s[..i] + [s[i]];
      IntegerDigitsRun(s, n, i + 1, cap);
    }
  }

  /** The first digit of a field, when it is not '0', starts the integer part. */
  lemma NonzeroStart(s: seq<char>, cap: nat)
    requires 1 <= |s| && 1 <= cap && IsDigit(s[0]) && s[0] != '0'
    ensures FloatField(s, cap) == FloatRun(s, 1, FloatScan(IntegerPart, false, s[..1], 1, 0), cap, false)
  {
    assert s[..1] == [s[0]];
    assert !IsWhitespace(s[0]);
    assert FloatStep(FloatStart, s, 0, cap, false) == Going(FloatScan(IntegerPart, false, [s[0]], 1, 0));
  }

  /**
   * An exponent: after the integer digits d, "e" and the rest x, parseFloat
   * hands x to parseInt and adds the int it yields to the decimal exponent;
   * when x does not parse, the exponent stays |d|.  Either way the field is
   * accepted, because digits were recorded.
   */
  lemma FloatExponent(d: seq<char>, x: seq<char>, cap: nat)
    requires 1 <= |d| <= cap && AllDigits(d) && d[0] != '0' && 1 <= |x|
    ensures var e := IntField(x, 10);
      FloatField(d + ['e'] + x, cap) ==
      Done(true, FloatScan(Exponent, false, d, if e.Some? then Wrap32(|d| + e.value) else |d|, 0))
  {
    var s := d + ['e'] + x;
    var n := |d|;
    assert s[..n] == d && s[n] == 'e' && s[n + 1..] == x;
    NonzeroStart(s, cap);
    IntegerDigitsRun(s, n, 1, cap);
    var sc := FloatScan(IntegerPart, false, d, n, 0);
    assert FloatStep(sc, s, n, cap, false) == Going(sc.(state := Exponent));
    assert FloatStep(sc.(state := Exponent), s, n + 1, cap, false) == ExponentChars(sc.(state := Exponent), x);
  }

  /**
   * A run of more integer digits than the buffer holds fails: the digit that
   * finds the buffer full makes parseFloat return false.
   */
  lemma FloatTooManyDigits(d: seq<char>, cap: nat)
    requires 1 <= cap < |d| && AllDigits(d) && d[0] != '0'
    ensures FloatField(d, cap) == Done(false, FloatScan(IntegerPart, false, d[..cap], cap, 0))
  {
    assert AllDigits(d[..cap]);
    NonzeroStart(d, cap);
    IntegerDigitsRun(d, cap, 1, cap);
    assert IsDigit(d[cap]);
  }

  /** A field parseFloat accepts has recorded at least one digit, as written and corrected. */
  lemma {:induction false} FloatOkHasDigits(s: seq<char>, i: nat, sc: FloatScan, cap: nat, asWritten: bool)
    requires i <= |s|
    ensures var out := FloatRun(s, i, sc, cap, asWritten);
      out.Done? && out.ok ==> |out.last.digits| > 0
    decreases |s| - i
  {
    if i < |s| {
      match FloatStep(sc, s, i, cap, asWritten)
      case Going(next) => FloatOkHasDigits(s, i + 1, next, cap, asWritten);
      case _ =>
    }
  }

  lemma FloatSuccessHasDigits(s: seq<char>, cap: nat)
    ensures var out := FloatField(s, cap); out.Done? && out.ok ==> |out.last.digits| > 0
    ensures var out := FloatFieldAsWritten(s, cap); out.Done? && out.ok ==> |out.last.digits| > 0
  {
    FloatOkHasDigits(s, 0, FloatStart, cap, false);
    FloatOkHasDigits(s, 0, FloatStart, cap, true);
  }

  /** No digit read yet and none to come: the scan is outside the integer part and its buffer is empty. */
  ghost predicate NoDigitYet(sc: FloatScan) {
    sc.digits == [] && sc.state != LeadingZeros && sc.state != IntegerPart
  }

  lemma {:induction false} FloatNoDigitRun(s: seq<char>, i: nat, sc: FloatScan, cap: nat, asWritten: bool)
    requires i <= |s| && NoDigitYet(sc)
    requires forall k :: 0 <= k < |s| ==> !IsDigit(s[k])
    ensures FloatRun(s, i, sc, cap, asWritten).Done? && !FloatRun(s, i, sc, cap, asWritten).ok
    decreases |s| - i
  {
    if i < |s| {
      assert !IsDigit(s[i]);
      match FloatStep(sc, s, i, cap, asWritten)
      case Going(next) => FloatNoDigitRun(s, i + 1, next, cap, asWritten);
      case _ =>
    }
  }

  /** A field without a digit (signs, whitespace, a point, an exponent) is rejected. */
  lemma FloatNoDigitFails(s: seq<char>, cap: nat)
    requires forall k :: 0 <= k < |s| ==> !IsDigit(s[k])
    ensures FloatField(s, cap).Done? && !FloatField(s, cap).ok
    ensures FloatFieldAsWritten(s, cap).Done? && !FloatFieldAsWritten(s, cap).ok
  {
    FloatNoDigitRun(s, 0, FloatStart, cap, false);
    FloatNoDigitRun(s, 0, FloatStart, cap, true);
  }

  /** As written, "0102" is recorded as the digits 012 with exponent 3, i.e. 12. */
  lemma FloatLeadingZeroAsWritten()
    ensures FloatFieldAsWritten("0102", 8) == Done(true, FloatScan(LeadingZeros, false, "012", 3, 0))
    ensures DigitsValue("012", 10) == 12 && DigitsValue("0102", 10) == 102
  {
    assert "0102"[..3] == "010" && "010"[..2] == "01" && "01"[..1] == "0" && "0"[..0] == "";
    assert "012"[..2] == "01";
  }

  /** As written, a digit after held-back zeros that do not fit writes past the buffer. */
  lemma FloatFlushAsWritten()
    ensures FloatFieldAsWritten("1.001", 2) == Overflow
    ensures FloatField("1.001", 2) == Done(false, FloatScan(Fraction, false, "1", 1, 2))
  {
    var s := "1.001";
    var a := FloatScan(IntegerPart, false, "1", 1, 0);
    var b := a.(state := Fraction);
    assert FloatStep(FloatStart, s, 0, 2, true) == Going(a) == FloatStep(FloatStart, s, 0, 2, false);
    assert FloatStep(a, s, 1, 2, true) == Going(b) == FloatStep(a, s, 1, 2, false);
    assert FloatStep(b, s, 2, 2, true) == Going(b.(zeros := 1)) == FloatStep(b, s, 2, 2, false);
    assert FloatStep(b.(zeros := 1), s, 3, 2, true) == Going(b.(zeros := 2)) == FloatStep(b.(zeros := 1), s, 3, 2, false);
    assert FloatStep(b.(zeros := 2), s, 4, 2, true) == Overflow;
    assert FloatStep(b.(zeros := 2), s, 4, 2, false) == Done(false, b.(zeros := 2));
  }
}
