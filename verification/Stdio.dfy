/** Integer formatting and bounded output of lib/stdio.c, and `atoi` of lib/stdlib.c. */
module Stdio {
  import opened Basics

  // ----- conversions -----

  datatype Base = Decimal | Octal | Hex(upper: bool)

  function Radix(b: Base): nat {
    match b
    case Decimal => 10
    case Octal => 8
    case Hex(_) => 16
  }

  function GroupSize(b: Base): nat { if b.Hex? then 4 else 3 }

  function DigitChars(b: Base): string {
    match b
    case Decimal => "0123456789"
    case Octal => "01234567"
    case Hex(upper) => if upper then "0123456789ABCDEF" else "0123456789abcdef"
  }

  function Digit(b: Base, v: nat): char { DigitChars(b)[v % Radix(b)] }

  datatype Flags = Flags(minus: bool, plus: bool, space: bool, pound: bool, zero: bool, group: bool)

  function Repeat(c: char, n: nat): string { seq(n, _ => c) }

  function Reverse(s: string): string { if s == [] then [] else Reverse(s[1..]) + [s[0]] }

  function Positive(n: int): nat { if n < 0 then 0 else n }

  // ----- what a conversion prints -----

  function SignOf(isSigned: bool, negative: bool, f: Flags): string {
    if !isSigned then ""
    else if f.plus then (if negative then "-" else "+")
    else if f.space then (if negative then "-" else " ")
    else if negative then "-" else ""
  }

  function HexMark(value: nat, b: Base, f: Flags): string {
    if f.pound && value > 0 && b.Hex? then (if b.upper then "0X" else "0x") else ""
  }

  predicate StartsGroup(b: Base, group: bool, d: nat) { group && d > 0 && d % GroupSize(b) == 0 }

  /** The digits of `v` from the lowest on, with commas before each further group; `d` digits
      are already there. */
  function LowFirst(v: nat, b: Base, group: bool, d: nat): string
    decreases v
  {
    if v == 0 then []
    else (if StartsGroup(b, group, d) then "," else "") + [Digit(b, v)] + LowFirst(v / Radix(b), b, group, d + 1)
  }

  const BUF_SIZE: nat := 64

  /** Zeros up to the precision, as far as the buffer allows. */
  function Filled(s: string, precision: int): string {
    var wanted := if precision < 0 then 1 else if precision < BUF_SIZE - 1 then precision else BUF_SIZE - 1;
    s + Repeat('0', Positive(wanted - |s|))
  }

  /** With the # flag an octal number starts with a zero. */
  function Marked(s: string, b: Base, f: Flags): string {
    if f.pound && b.Octal? && (s == [] || s[|s| - 1] != '0') then s + "0" else s
  }

  /** What the buffer holds in the end, lowest digit first. */
  function Buffer(value: nat, b: Base, f: Flags, precision: int): string {
    Marked(Filled(LowFirst(value, b, f.group, 0), precision), b, f)
  }

  /** The field: padding on the left, sign and mark, zeros and digits, padding on the right. */
  function Layout(mark: string, digits: string, pad: nat, f: Flags): string {
    (if f.minus || f.zero then "" else Repeat(' ', pad))
    + mark
    + ((if f.zero then Repeat('0', pad) else "") + digits)
    + (if f.minus then Repeat(' ', pad) else "")
  }

  function Rendered(value: nat, isSigned: bool, negative: bool, b: Base, f: Flags, width: int, precision: int): string {
    var mark, buf := SignOf(isSigned, negative, f) + HexMark(value, b, f), Buffer(value, b, f, precision);
    Layout(mark, Reverse(buf), Positive(width - |buf| - |mark|), f)
  }

  // ----- the buffer is large enough -----

  function Pow8(k: nat): nat { if k == 0 then 1 else 8 * Pow8(k - 1) }

  /** A number below 8^k has at most k digits, each with at most one comma. */
  lemma {:induction false} LowFirstLength(v: nat, b: Base, group: bool, d: nat, k: nat)
    requires v < Pow8(k)
    ensures |LowFirst(v, b, group, d)| <= 2 * k
    decreases v
  {
    if v > 0 {
      assert v / Radix(b) <= v / 8;
      LowFirstLength(v / Radix(b), b, group, d + 1, k - 1);
    }
  }

  const UINTMAX: nat := 0xFFFF_FFFF_FFFF_FFFF

  lemma Pow8Bound()
    ensures UINTMAX < Pow8(22)
  {
    assert Pow8(11) == 0x2_0000_0000;
    assert Pow8(22) == Pow8(11) * Pow8(11);
  }

  /** `format_integer` stays within its buffer for every value, base, flag and precision. */
  lemma BufferFits(value: nat, b: Base, f: Flags, precision: int)
    requires value <= UINTMAX
    ensures |LowFirst(value, b, f.group, 0)| < BUF_SIZE
    ensures |Filled(LowFirst(value, b, f.group, 0), precision)| < BUF_SIZE
    ensures |Buffer(value, b, f, precision)| <= BUF_SIZE
  {
    Pow8Bound();
    LowFirstLength(value, b, f.group, 0, 22);
  }

  // ----- format_integer -----

  /** `output_dup`. */
  method OutputDup(out: string, c: char, cnt: nat) returns (out': string)
    ensures out' == out + Repeat(c, cnt)
  {
    out' := out;
    var n: nat := cnt;
    while n > 0
      invariant n <= cnt && out' == out + Repeat(c, cnt - n)
    {
      out' := out' + [c];
      n := n - 1;
    }
  }

  /** A store at the end of the used part of the buffer. */
  method Store(buf: array<char>, cp: nat, c: char)
    requires cp < buf.Length
    modifies buf
    ensures buf[..cp + 1] == old(buf[..cp]) + [c]
  {
    buf[cp] := c;
  }

  /** The body of the digit loop. */
  method StoreDigit(buf: array<char>, start: nat, v: nat, b: Base, group: bool, d: nat) returns (cp: nat)
    requires v > 0 && start + |LowFirst(v, b, group, d)| <= buf.Length
    modifies buf
    ensures cp + |LowFirst(v / Radix(b), b, group, d + 1)| == start + |LowFirst(v, b, group, d)|
    ensures buf[..cp] + LowFirst(v / Radix(b), b, group, d + 1) == old(buf[..start]) + LowFirst(v, b, group, d)
  {
    hide LowFirst, Digit, StartsGroup;
    LowFirstStep(v, b, group, d);
    ghost var s, more := buf[..start], LowFirst(v / Radix(b), b, group, d + 1);
    var c := Digit(b, v);
    JoinDigit(s, c, more);
    cp := start;
    if StartsGroup(b, group, d) {
      Store(buf, cp, ',');
      cp := cp + 1;
    }
    Store(buf, cp, c);
    cp := cp + 1;
  }

  lemma JoinDigit(s: string, c: char, more: string)
    ensures s + "," + [c] + more == s + ("," + [c] + more)
    ensures s + [c] + more == s + ([c] + more)
  {
  }

  /** The digit loop; every store is inside the buffer. */
  method StoreDigits(buf: array<char>, value: nat, b: Base, f: Flags) returns (cp: nat)
    requires buf.Length == BUF_SIZE && value <= UINTMAX
    modifies buf
    ensures cp < BUF_SIZE && buf[..cp] == LowFirst(value, b, f.group, 0)
  {
    hide LowFirst;
    ghost var all := LowFirst(value, b, f.group, 0);
    BufferFits(value, b, f, 0);
    cp := 0;
    var d: nat, v: nat := 0, value;
    while v > 0
      invariant cp + |LowFirst(v, b, f.group, d)| == |all|
      invariant buf[..cp] + LowFirst(v, b, f.group, d) == all
      decreases v
    {
      cp := StoreDigit(buf, cp, v, b, f.group, d);
      v := v / Radix(b);
      d := d + 1;
    }
    LowFirstNone(b, f.group, d);
  }

  lemma LowFirstNone(b: Base, group: bool, d: nat)
    ensures LowFirst(0, b, group, d) == []
  {
  }

  lemma LowFirstStep(v: nat, b: Base, group: bool, d: nat)
    requires v > 0
    ensures var more := LowFirst(v / Radix(b), b, group, d + 1);
      LowFirst(v, b, group, d) ==
      if StartsGroup(b, group, d) then "," + [Digit(b, v)] + more else [Digit(b, v)] + more
  {
  }

  /** The zeros for the precision and the # flag. */
  method StoreZeros(buf: array<char>, start: nat, b: Base, f: Flags, precision: int) returns (cp: nat)
    requires buf.Length == BUF_SIZE && start < BUF_SIZE
    modifies buf
    ensures cp <= BUF_SIZE && buf[..cp] == Marked(Filled(old(buf[..start]), precision), b, f)
  {
    var wanted := if precision < 0 then 1 else precision;
    cp := start;
    ghost var s := buf[..start];
    while cp < wanted && cp < BUF_SIZE - 1
      invariant start <= cp < BUF_SIZE && (cp > start ==> cp <= wanted)
      invariant buf[..cp] == s + Repeat('0', cp - start)
    {
      buf[cp] := '0';
      cp := cp + 1;
    }
    assert buf[..cp] == Filled(s, precision);
    if f.pound && b.Octal? && (cp == 0 || buf[cp - 1] != '0') {
      buf[cp] := '0';
      cp := cp + 1;
    }
  }

  /** The loop that prints the buffer backwards. */
  method OutputBuffer(out: string, buf: array<char>, n: nat) returns (out': string)
    requires n <= buf.Length
    ensures out' == out + Reverse(buf[..n])
  {
    out' := out;
    var cp: nat := n;
    ghost var done: string := [];
    while cp > 0
      invariant cp <= n && out' == out + done && done + Reverse(buf[..cp]) == Reverse(buf[..n])
    {
      cp := cp - 1;
      assert buf[..cp + 1] == buf[..cp] + [buf[cp]];
      ReverseAppend(buf[..cp], [buf[cp]]);
      out' := out' + [buf[cp]];
      done := done + [buf[cp]];
    }
  }

  lemma {:induction false} ReverseAppend(s: string, t: string)
    ensures Reverse(s + t) == Reverse(t) + Reverse(s)
  {
    if s == [] {
      assert s + t == t;
    } else {
      ReverseAppend(s[1..], t);
      assert (s + t)[1..] == s[1..] + t;
    }
  }

  /** The output part of `format_integer`. */
  method Emit(sign: string, x: string, buf: array<char>, n: nat, pad: nat, f: Flags) returns (out: string)
    requires n <= buf.Length
    ensures out == Layout(sign + x, Reverse(buf[..n]), pad, f)
  {
    hide Reverse, Repeat;
    ghost var digits := Reverse(buf[..n]);
    out := [];
    if !f.minus && !f.zero {
      out := OutputDup(out, ' ', pad);
    }
    ghost var left := out;
    out := out + sign + x;
    assert out == left + (sign + x);
    ghost var middle := out;
    if f.zero {
      out := OutputDup(out, '0', pad);
    }
    out := OutputBuffer(out, buf, n);
    assert out == middle + ((if f.zero then Repeat('0', pad) else "") + digits);
    if f.minus {
      out := OutputDup(out, ' ', pad);
    }
  }

  /** `format_integer`, with the characters given to `output` collected. */
  method FormatInteger(value: nat, isSigned: bool, negative: bool, b: Base, f: Flags, width: int, precision: int)
    returns (out: string)
    requires value <= UINTMAX
    ensures out == Rendered(value, isSigned, negative, b, f, width, precision)
  {
    hide Reverse, Layout, LowFirst, SignOf, HexMark, Marked, Filled;
    var sign := SignOf(isSigned, negative, f);
    var x := HexMark(value, b, f);
    var buf := new char[BUF_SIZE];
    var start := StoreDigits(buf, value, b, f);
    var n := StoreZeros(buf, start, b, f, precision);
    assert buf[..n] == Buffer(value, b, f, precision);
    var pad := width - n - |x| - |sign|;
    if pad < 0 {
      pad := 0;
    }
    out := Emit(sign, x, buf, n, pad, f);
  }

  // ----- atoi -----

  const INT_MIN: int := -0x8000_0000
  const INT_MAX: int := 0x7FFF_FFFF

  predicate IsSpace(c: char) {
    // form feed and vertical tab by their codes
    c == ' ' || c == '\n' || c == '\r' || c == '\t' || c as int == 12 || c as int == 11
  }

  predicate IsDigit(c: char) { '0' <= c <= '9' }

  function SkipSpace(s: string): string {
    if s != [] && IsSpace(s[0]) then SkipSpace(s[1..]) else s
  }

  /** The digits are summed up as a negative number; None stands for leaving the range of
      `int`. */
  function Accumulate(s: string, value: int): Option<int> {
    if s == [] || !IsDigit(s[0]) then Some(value)
    else
      var next := value * 10 - (s[0] as int - '0' as int);
      if next < INT_MIN then None else Accumulate(s[1..], next)
  }

  function Negated(v: Option<int>): Option<int> {
    if v.Some? && -v.value <= INT_MAX then Some(-v.value) else None
  }

  /** The number that starts a string, if it is in range. */
  function Number(s: string): Option<int> {
    var t := SkipSpace(s);
    if t != [] && t[0] == '-' then Accumulate(t[1..], 0)
    else if t != [] && t[0] == '+' then Negated(Accumulate(t[1..], 0))
    else Negated(Accumulate(t, 0))
  }

  method SkipWhite(s: string) returns (i: nat)
    ensures i <= |s| && s[i..] == SkipSpace(s)
  {
    i := 0;
    while i < |s| && IsSpace(s[i])
      invariant i <= |s| && SkipSpace(s[i..]) == SkipSpace(s)
    {
      i := i + 1;
    }
  }

  method SumDigits(s: string) returns (r: Option<int>)
    ensures r == Accumulate(s, 0)
  {
    var i: nat, value := 0, 0;
    while i < |s| && IsDigit(s[i])
      invariant i <= |s| && Accumulate(s[i..], value) == Accumulate(s, 0)
    {
      value := value * 10 - (s[i] as int - '0' as int);
      if value < INT_MIN {
        return None;
      }
      i := i + 1;
    }
    return Some(value);
  }

  /** `atoi` on a string without its terminator. */
  method Atoi(s: string) returns (r: Option<int>)
    ensures r == Number(s)
  {
    hide SkipSpace, Accumulate;
    var i := SkipWhite(s);
    var t := s[i..];
    var negative := t != [] && t[0] == '-';
    if t != [] && (t[0] == '+' || t[0] == '-') {
      t := t[1..];
    }
    r := SumDigits(t);
    if !negative {
      r := Negated(r);
    }
  }

  // ----- printing and reading back -----

  lemma {:induction false} SkipPadding(n: nat, s: string)
    ensures SkipSpace(Repeat(' ', n) + s) == SkipSpace(s)
  {
    if n == 0 {
      assert Repeat(' ', n) + s == s;
    } else {
      SkipPadding(n - 1, s);
      assert (Repeat(' ', n) + s)[1..] == Repeat(' ', n - 1) + s;
    }
  }

  lemma {:induction false} LeadingZeros(n: nat, s: string)
    ensures Accumulate(Repeat('0', n) + s, 0) == Accumulate(s, 0)
  {
    hide Accumulate;
    if n == 0 {
      assert Repeat('0', n) + s == s;
    } else {
      LeadingZeros(n - 1, s);
      assert Repeat('0', n) + s == "0" + (Repeat('0', n - 1) + s);
      ReadZero(Repeat('0', n - 1) + s);
    }
  }

  lemma ReadZero(s: string)
    ensures Accumulate("0" + s, 0) == Accumulate(s, 0)
  {
    assert ("0" + s)[1..] == s;
  }

  lemma SplitLow(v: nat, d: nat)
    requires v > 0
    ensures Reverse(LowFirst(v, Decimal, false, d)) ==
      Reverse(LowFirst(v / 10, Decimal, false, d + 1)) + [Digit(Decimal, v)]
  {
    var low, high := [Digit(Decimal, v)], LowFirst(v / 10, Decimal, false, d + 1);
    assert LowFirst(v, Decimal, false, d) == low + high;
    ReverseAppend(low, high);
    assert Reverse(low) == low;
  }

  /** Reading the digits of `v` arrives at -v without leaving the range. */
  lemma {:induction false} ReadDigits(v: int, d: nat, rest: string)
    requires 0 <= v <= -INT_MIN
    ensures Accumulate(Reverse(LowFirst(v, Decimal, false, d)) + rest, 0) == Accumulate(rest, -v)
    decreases v
  {
    hide Accumulate, Digit;
    if v == 0 {
      assert Reverse(LowFirst(v, Decimal, false, d)) + rest == rest;
    } else {
      hide Reverse, LowFirst;
      var low, high := [Digit(Decimal, v)], Reverse(LowFirst(v / 10, Decimal, false, d + 1));
      SplitLow(v, d);
      ReadDigits(v / 10, d + 1, low + rest);
      ReadOne(v, rest);
      assert high + low + rest == high + (low + rest);
    }
  }

  lemma ReadOne(v: int, rest: string)
    requires 0 < v <= -INT_MIN
    ensures Accumulate([Digit(Decimal, v)] + rest, -(v / 10)) == Accumulate(rest, -v)
  {
    var d := Digit(Decimal, v);
    assert d as int - '0' as int == v % 10;
    assert ([d] + rest)[1..] == rest;
  }

  predicate StartsDigit(s: string) { s == [] || IsDigit(s[0]) }

  /** The highest digit is printed first. */
  lemma {:induction false} DigitFirst(v: nat, group: bool, d: nat)
    ensures StartsDigit(Reverse(LowFirst(v, Decimal, group, d)))
    ensures v > 0 ==> Reverse(LowFirst(v, Decimal, group, d)) != []
    decreases v
  {
    if v > 0 {
      var c := Digit(Decimal, v);
      var low := if StartsGroup(Decimal, group, d) then "," + [c] else [c];
      DigitFirst(v / 10, group, d + 1);
      LowFirstStep(v, Decimal, group, d);
      ReverseOne(c);
      assert IsDigit(c);
      hide LowFirst, Reverse, Digit, StartsGroup;
      ReverseAppend(low, LowFirst(v / 10, Decimal, group, d + 1));
    }
  }

  lemma ReverseOne(c: char)
    ensures Reverse([c]) == [c] && Reverse("," + [c]) == [c] + ","
  {
    ReverseAppend(",", [c]);
    assert Reverse([c]) == [c] && Reverse(",") == ",";
  }

  lemma {:induction false} ReverseRepeat(c: char, n: nat)
    ensures Reverse(Repeat(c, n)) == Repeat(c, n)
  {
    if n > 0 {
      assert Repeat(c, n)[1..] == Repeat(c, n - 1);
      ReverseRepeat(c, n - 1);
    }
  }

  /** The digits that a decimal conversion prints: zeros and the digits of the value. */
  lemma DecimalBuffer(v: nat, f: Flags, precision: int) returns (n: nat)
    ensures Reverse(Buffer(v, Decimal, f, precision)) == Repeat('0', n) + Reverse(LowFirst(v, Decimal, f.group, 0))
  {
    var low := LowFirst(v, Decimal, f.group, 0);
    var wanted := if precision < 0 then 1 else if precision < BUF_SIZE - 1 then precision else BUF_SIZE - 1;
    n := Positive(wanted - |low|);
    ReverseAppend(low, Repeat('0', n));
    ReverseRepeat('0', n);
  }

  predicate Spaces(s: string) { s == [] || s == Repeat(' ', |s|) }

  /** Zeros in front do not change what is read. */
  lemma ReadField(z: nat, n: nat, digits: string, right: string)
    requires StartsDigit(digits)
    ensures var body := Repeat('0', z) + (Repeat('0', n) + digits);
      Accumulate(body + right, 0) == Accumulate(digits + right, 0) && StartsDigit(body)
  {
    hide Accumulate;
    var s := digits + right;
    LeadingZeros(n, s);
    LeadingZeros(z, Repeat('0', n) + s);
    assert Repeat('0', z) + (Repeat('0', n) + digits) + right == Repeat('0', z) + (Repeat('0', n) + s);
  }

  lemma SkipNothing(body: string, right: string)
    requires StartsDigit(body) && Spaces(right)
    ensures SkipSpace(body + right) == if body == [] then [] else body + right
  {
    if body == [] {
      assert body + right == right == right + [];
      if right != [] {
        SkipPadding(|right|, []);
      }
    } else {
      assert IsDigit((body + right)[0]);
    }
  }

  /** What `atoi` makes of left padding, a sign, digits and right padding. */
  lemma ReadSigned(pad: nat, mark: string, body: string, right: string, v: int)
    requires StartsDigit(body) && Spaces(right) && Accumulate(body + right, 0) == Some(-v)
    requires mark == "" || mark == " " || mark == "+" || mark == "-"
    requires 0 <= v && (if mark == "-" then -v >= INT_MIN else v <= INT_MAX)
    ensures Number(Repeat(' ', pad) + (mark + (body + right))) == Some(if mark == "-" then -v else v)
  {
    var t := body + right;
    SkipPadding(pad, mark + t);
    SkipNothing(body, right);
    if mark == " " {
      assert (mark + t)[1..] == t;
    } else if mark == "" {
      assert mark + t == t;
    } else {
      assert (mark + t)[1..] == t;
    }
  }

  /** The caller's part of %d. */
  function PrintDecimal(v: int, f: Flags, width: int, precision: int): string {
    Rendered(if v < 0 then -v else v, true, v < 0, Decimal, f, width, precision)
  }

  /** The spaces behind the digits. */
  function RightPadding(v: int, f: Flags, width: int, precision: int): string {
    var a := if v < 0 then -v else v;
    var n := Positive(width - |Buffer(a, Decimal, f, precision)| - |SignOf(true, v < 0, f)|);
    if f.minus then Repeat(' ', n) else ""
  }

  /** If the digits of the value are read as `w`, so is the whole field, with its sign. */
  lemma ReadPrinted(v: int, f: Flags, width: int, precision: int, w: int)
    requires INT_MIN <= v <= INT_MAX && 0 <= w <= (if v < 0 then -v else v)
    requires Accumulate(Reverse(LowFirst(if v < 0 then -v else v, Decimal, f.group, 0))
                        + RightPadding(v, f, width, precision), 0) == Some(-w)
    ensures Number(PrintDecimal(v, f, width, precision)) == Some(if v < 0 then -w else w)
  {
    hide Accumulate, Reverse, LowFirst, Number, Buffer, Layout, SignOf, HexMark, Repeat;
    var a: nat := if v < 0 then -v else v;
    var mark, buf := SignOf(true, v < 0, f), Buffer(a, Decimal, f, precision);
    SignCases(a, v < 0, f);
    assert mark + "" == mark;
    var pad := Positive(width - |buf| - |mark|);
    var z, right := if f.zero then pad else 0, RightPadding(v, f, width, precision);
    var left := if f.minus || f.zero then 0 else pad;
    RepeatSpaces(pad);
    var n := DecimalBuffer(a, f, precision);
    var digits := Reverse(LowFirst(a, Decimal, f.group, 0));
    DigitFirst(a, f.group, 0);
    ReadField(z, n, digits, right);
    LayoutParts(mark, Reverse(buf), pad, f, left, z, right);
    ReadSigned(left, mark, Repeat('0', z) + Reverse(buf), right, w);
  }

  lemma SignCases(a: nat, negative: bool, f: Flags)
    ensures HexMark(a, Decimal, f) == ""
    ensures var mark := SignOf(true, negative, f);
      (mark == "" || mark == " " || mark == "+" || mark == "-") && (mark == "-" <==> negative)
  {
  }

  lemma RepeatSpaces(n: nat)
    ensures Spaces(Repeat(' ', n))
  {
  }

  lemma StopAtSpaces(right: string, value: int)
    requires Spaces(right)
    ensures Accumulate(right, value) == Some(value)
  {
  }

  // ----- the grouping flag -----

  /** Reading grouped digits goes on behind them, or stops at a comma with at most their
      value. */
  lemma {:induction false} ReadGrouped(v: int, d: nat, rest: string) returns (w: Option<int>)
    requires 0 <= v <= -INT_MIN
    ensures w.None? ==> Accumulate(Reverse(LowFirst(v, Decimal, true, d)) + rest, 0) == Accumulate(rest, -v)
    ensures w.Some? ==> Accumulate(Reverse(LowFirst(v, Decimal, true, d)) + rest, 0) == Some(-w.value)
    ensures w.Some? ==> 0 <= w.value <= v
    ensures v > 0 && StartsGroup(Decimal, true, d) ==> w.Some?
    decreases v
  {
    hide Accumulate, Digit, StartsGroup;
    if v == 0 {
      w := None;
      assert Reverse(LowFirst(v, Decimal, true, d)) + rest == rest;
    } else {
      var comma := if StartsGroup(Decimal, true, d) then "," else "";
      var low, high := [Digit(Decimal, v)], Reverse(LowFirst(v / 10, Decimal, true, d + 1));
      SplitGrouped(v, d);
      hide Reverse, LowFirst;
      w := ReadGrouped(v / 10, d + 1, low + (comma + rest));
      ReadOne(v, comma + rest);
      assert high + (low + comma) + rest == high + (low + (comma + rest));
      if StartsGroup(Decimal, true, d) {
        if w.None? {
          StopAtComma(rest, -v);
          w := Some(v);
        }
      } else {
        assert comma + rest == rest;
      }
    }
  }

  lemma StopAtComma(rest: string, value: int)
    ensures Accumulate("," + rest, value) == Some(value)
  {
  }

  lemma SplitGrouped(v: nat, d: nat)
    requires v > 0
    ensures Reverse(LowFirst(v, Decimal, true, d)) == Reverse(LowFirst(v / 10, Decimal, true, d + 1))
      + ([Digit(Decimal, v)] + if StartsGroup(Decimal, true, d) then "," else "")
  {
    var low := if StartsGroup(Decimal, true, d) then "," + [Digit(Decimal, v)] else [Digit(Decimal, v)];
    var high := LowFirst(v / 10, Decimal, true, d + 1);
    LowFirstStep(v, Decimal, true, d);
    hide LowFirst, Digit;
    ReverseAppend(low, high);
    ReverseAppend(",", [Digit(Decimal, v)]);
    assert Reverse([Digit(Decimal, v)]) == [Digit(Decimal, v)] && Reverse(",") == ",";
  }

  /** Below a thousand there are no commas. */
  lemma NoCommas(v: nat)
    requires v < 1000
    ensures LowFirst(v, Decimal, true, 0) == LowFirst(v, Decimal, false, 0)
  {
    var v1, v2, v3 := v / 10, v / 10 / 10, v / 10 / 10 / 10;
    assert v3 == 0;
    assert LowFirst(v2, Decimal, true, 2) == LowFirst(v2, Decimal, false, 2);
    assert LowFirst(v1, Decimal, true, 1) == LowFirst(v1, Decimal, false, 1);
  }

  /** From a thousand on only the first group is read. */
  lemma ReadThousands(v: int, right: string) returns (w: int)
    requires 1000 <= v <= -INT_MIN
    ensures 0 <= w < v && Accumulate(Reverse(LowFirst(v, Decimal, true, 0)) + right, 0) == Some(-w)
  {
    hide Accumulate, Reverse, LowFirst, Digit;
    var v1, v2, v3 := v / 10, v / 10 / 10, v / 10 / 10 / 10;
    SplitGrouped(v, 0);
    SplitGrouped(v1, 1);
    SplitGrouped(v2, 2);
    var rest := [Digit(Decimal, v2)] + [Digit(Decimal, v1)] + [Digit(Decimal, v)] + right;
    var r := ReadGrouped(v3, 3, rest);
    w := r.value;
    var high := Reverse(LowFirst(v3, Decimal, true, 3));
    assert high + ([Digit(Decimal, v2)] + "") + ([Digit(Decimal, v1)] + "") + ([Digit(Decimal, v)] + "") + right
      == high + rest;
  }

  /** `atoi` reads back what %d prints without leaving the range of `int`, for every `int`,
      width and precision and every set of flags, except that with the grouping flag it
      reads back exactly the numbers without a comma. */
  lemma RoundTrip(v: int, f: Flags, width: int, precision: int)
    requires INT_MIN <= v <= INT_MAX
    ensures Number(PrintDecimal(v, f, width, precision)) == Some(v) <==> !f.group || -1000 < v < 1000
  {
    hide Accumulate, Reverse, LowFirst, PrintDecimal, Number;
    var a: int := if v < 0 then -v else v;
    var right := RightPadding(v, f, width, precision);
    if f.group && a >= 1000 {
      var w := ReadThousands(a, right);
      ReadPrinted(v, f, width, precision, w);
    } else {
      if f.group {
        NoCommas(a);
      }
      ReadDigits(a, 0, right);
      StopAtSpaces(right, -a);
      ReadPrinted(v, f, width, precision, a);
    }
  }

  lemma LayoutParts(mark: string, digits: string, pad: nat, f: Flags, left: nat, z: nat, right: string)
    requires left == (if f.minus || f.zero then 0 else pad) && z == (if f.zero then pad else 0)
    requires right == if f.minus then Repeat(' ', pad) else ""
    ensures Layout(mark, digits, pad, f) == Repeat(' ', left) + (mark + (Repeat('0', z) + digits + right))
  {
    assert Repeat(' ', 0) == "" && Repeat('0', 0) == "";
  }

  // ----- the digits mean the value -----

  function DigitValue(c: char): nat {
    if '0' <= c <= '9' then c as int - '0' as int
    else if 'a' <= c <= 'f' then c as int - 'a' as int + 10
    else if 'A' <= c <= 'F' then c as int - 'A' as int + 10
    else 0
  }

  /** The number that digits in base `b` write, highest first. */
  function NumberIn(b: Base, s: string): nat {
    if s == [] then 0 else NumberIn(b, s[..|s| - 1]) * Radix(b) + DigitValue(s[|s| - 1])
  }

  function WithoutCommas(s: string): string {
    if s == [] then [] else (if s[0] == ',' then [] else [s[0]]) + WithoutCommas(s[1..])
  }

  lemma DigitMeaning(b: Base, v: nat)
    ensures DigitValue(Digit(b, v)) == v % Radix(b) && Digit(b, v) != ','
  {
  }

  lemma NumberAppend(b: Base, s: string, c: char)
    ensures NumberIn(b, s + [c]) == NumberIn(b, s) * Radix(b) + DigitValue(c)
  {
    assert (s + [c])[..|s|] == s;
  }

  /** In every base the digits of a value read back as the value. */
  lemma {:induction false} DigitsMeanValue(v: nat, b: Base, d: nat)
    ensures NumberIn(b, Reverse(LowFirst(v, b, false, d))) == v
    decreases v
  {
    if v > 0 {
      hide NumberIn, Digit, DigitValue;
      var low, high := [Digit(b, v)], LowFirst(v / Radix(b), b, false, d + 1);
      DigitsMeanValue(v / Radix(b), b, d + 1);
      LowFirstStep(v, b, false, d);
      ReverseAppend(low, high);
      assert Reverse(low) == low;
      NumberAppend(b, Reverse(high), Digit(b, v));
      DigitMeaning(b, v);
    }
  }

  lemma {:induction false} ZerosMeanNothing(b: Base, n: nat, s: string)
    ensures NumberIn(b, Repeat('0', n) + s) == NumberIn(b, s)
    decreases |s|, n
  {
    hide NumberIn, DigitValue, Repeat;
    RepeatZeros(n);
    if s != [] {
      var t, c := s[..|s| - 1], s[|s| - 1];
      ZerosMeanNothing(b, n, t);
      NumberAppend(b, Repeat('0', n) + t, c);
      NumberAppend(b, t, c);
      assert Repeat('0', n) + s == Repeat('0', n) + t + [c] && s == t + [c];
    } else if n > 0 {
      ZerosMeanNothing(b, n - 1, []);
      NumberAppend(b, Repeat('0', n - 1) + [], '0');
      NumberAppend(b, [], '0');
      NoNumber(b);
    }
  }

  lemma RepeatZeros(n: nat)
    ensures n == 0 ==> Repeat('0', n) == []
    ensures n > 0 ==> Repeat('0', n) + [] == Repeat('0', n - 1) + [] + ['0']
  {
  }

  lemma NoNumber(b: Base)
    ensures NumberIn(b, []) == 0 && DigitValue('0') == 0
  {
  }

  /** In every base, with every precision and the # flag, the printed digits mean the value. */
  lemma BufferMeansValue(v: nat, b: Base, f: Flags, precision: int)
    requires !f.group
    ensures NumberIn(b, Reverse(Buffer(v, b, f, precision))) == v
  {
    var low := LowFirst(v, b, false, 0);
    var filled := Filled(low, precision);
    var n := |filled| - |low|;
    assert filled == low + Repeat('0', n);
    hide NumberIn, Reverse, LowFirst;
    DigitsMeanValue(v, b, 0);
    ReverseAppend(low, Repeat('0', n));
    ReverseRepeat('0', n);
    ZerosMeanNothing(b, n, Reverse(low));
    ReverseAppend(filled, "0");
    ReverseRepeat('0', 1);
    assert Repeat('0', 1) == "0";
    ZerosMeanNothing(b, 1, Reverse(filled));
  }

  /** Grouping only adds commas. */
  lemma {:induction false} GroupingAddsCommas(v: nat, b: Base, d: nat)
    ensures WithoutCommas(LowFirst(v, b, true, d)) == LowFirst(v, b, false, d)
    decreases v
  {
    if v > 0 {
      hide LowFirst, Digit, StartsGroup;
      var c, more := Digit(b, v), LowFirst(v / Radix(b), b, true, d + 1);
      GroupingAddsCommas(v / Radix(b), b, d + 1);
      LowFirstStep(v, b, true, d);
      LowFirstStep(v, b, false, d);
      assert !StartsGroup(b, false, d) by { NeverGroups(b, d); }
      DigitMeaning(b, v);
      DropComma(c, more);
    }
  }

  lemma NeverGroups(b: Base, d: nat)
    ensures !StartsGroup(b, false, d)
  {
  }

  lemma DropComma(c: char, more: string)
    requires c != ','
    ensures WithoutCommas([c] + more) == [c] + WithoutCommas(more)
    ensures WithoutCommas("," + [c] + more) == [c] + WithoutCommas(more)
  {
    assert ([c] + more)[1..] == more;
    assert ("," + [c] + more)[1..] == [c] + more;
  }

  /** The field has exactly the wanted width, or that of its content if this is larger,
      unless padding is needed and both the 0 and the - flag are set. */
  lemma FieldWidth(value: nat, isSigned: bool, negative: bool, b: Base, f: Flags, width: int, precision: int)
    ensures var content := |SignOf(isSigned, negative, f)| + |HexMark(value, b, f)| + |Buffer(value, b, f, precision)|;
      |Rendered(value, isSigned, negative, b, f, width, precision)| == (if width > content then width else content)
      <==> width <= content || !(f.minus && f.zero)
  {
    ReverseLength(Buffer(value, b, f, precision));
  }

  lemma {:induction false} ReverseLength(s: string)
    ensures |Reverse(s)| == |s|
  {
    if s != [] {
      ReverseLength(s[1..]);
    }
  }

  // ----- what atoi reads -----

  predicate AllDigits(s: string) { forall i :: 0 <= i < |s| ==> '0' <= s[i] <= '9' }

  /** Blank, tab, newline, vertical tab, form feed and carriage return. */
  predicate AllWhite(s: string) { forall i :: 0 <= i < |s| ==> s[i] as int == 32 || 9 <= s[i] as int <= 13 }

  /** The number with its sign, up to the given bound. */
  function Below(v: int, bound: int, negative: bool): Option<int> {
    if v > bound then None else if negative then Some(-v) else Some(v)
  }

  /** The number `a` with more decimal digits behind it. */
  function Extended(a: nat, digits: string): nat
    decreases |digits|
  {
    if digits == [] then a else Extended(10 * a + DigitValue(digits[0]), digits[1..])
  }

  lemma {:induction false} ExtendedIsLarger(a: nat, digits: string)
    ensures Extended(a, digits) >= a
    decreases |digits|
  {
    if digits != [] {
      ExtendedIsLarger(10 * a + DigitValue(digits[0]), digits[1..]);
    }
  }

  lemma {:induction false} ExtendedNumber(s: string, t: string)
    ensures Extended(NumberIn(Decimal, s), t) == NumberIn(Decimal, s + t)
    decreases |t|
  {
    if t == [] {
      assert s + t == s;
    } else {
      NumberAppend(Decimal, s, t[0]);
      ExtendedNumber(s + [t[0]], t[1..]);
      assert s + [t[0]] + t[1..] == s + t;
    }
  }

  lemma AccumulateOne(c: char, s: string, value: int)
    requires '0' <= c <= '9'
    ensures var next := value * 10 - DigitValue(c);
      Accumulate([c] + s, value) == if next < -0x8000_0000 then None else Accumulate(s, next)
  {
    assert ([c] + s)[1..] == s;
  }

  lemma AccumulateNone(s: string, value: int)
    requires s == [] || !('0' <= s[0] <= '9')
    ensures Accumulate(s, value) == Some(value)
  {
  }

  lemma {:induction false} AccumulateDigits(a: int, digits: string, rest: string)
    requires 0 <= a <= 0x8000_0000 && AllDigits(digits) && (rest == [] || !('0' <= rest[0] <= '9'))
    ensures Accumulate(digits + rest, -a) == Below(Extended(a, digits), 0x8000_0000, true)
    decreases |digits|
  {
    hide Accumulate, DigitValue;
    if digits == [] {
      assert digits + rest == rest;
      AccumulateNone(rest, -a);
    } else {
      var c, more, a' := digits[0], digits[1..], 10 * a + DigitValue(digits[0]);
      assert Extended(a, digits) == Extended(a', more);
      hide Extended;
      ExtendedIsLarger(a', more);
      assert digits + rest == [c] + (more + rest);
      AccumulateOne(c, more + rest, -a);
      if a' <= 0x8000_0000 {
        AccumulateDigits(a', more, rest);
      }
    }
  }

  lemma {:induction false} SkipAllWhite(white: string, s: string)
    requires AllWhite(white) && (s == [] || !AllWhite(s[..1]))
    ensures SkipSpace(white + s) == s
  {
    if white == [] {
      assert white + s == s;
    } else {
      SkipAllWhite(white[1..], s);
      assert (white + s)[1..] == white[1..] + s;
    }
  }

  /** `atoi` reads white space, a sign or none, and digits up to the first other character; it
      gives their decimal value with that sign, if an int holds it. */
  lemma AtoiMeaning(white: string, sign: string, digits: string, rest: string)
    requires AllWhite(white) && AllDigits(digits) && (rest == [] || !('0' <= rest[0] <= '9'))
    requires sign == "" || sign == "+" || sign == "-"
    requires sign == "" && digits == "" ==> rest == [] || (!AllWhite(rest[..1]) && rest[0] != '+' && rest[0] != '-')
    ensures Number(white + (sign + (digits + rest))) ==
      Below(NumberIn(Decimal, digits), if sign == "-" then 0x8000_0000 else 0x7FFF_FFFF, sign == "-")
  {
    hide SkipSpace, Accumulate, NumberIn, Extended, AllDigits, AllWhite, Number;
    var body := digits + rest;
    SignedStart(sign, digits, rest);
    SkipAllWhite(white, sign + body);
    AccumulateDigits(0, digits, rest);
    ExtendedNumber("", digits);
    NoDigitsYet(digits);
    NumberBySign(white + (sign + body), sign, body);
  }

  lemma NoDigitsYet(digits: string)
    ensures "" + digits == digits && NumberIn(Decimal, "") == 0
  {
  }

  lemma NumberBySign(s: string, sign: string, body: string)
    requires SkipSpace(s) == sign + body && (sign == "" || sign == "+" || sign == "-")
    requires sign == "" ==> body == [] || (body[0] != '+' && body[0] != '-')
    ensures Number(s) == if sign == "-" then Accumulate(body, 0) else Negated(Accumulate(body, 0))
  {
    hide SkipSpace, Accumulate, Negated;
    var t := sign + body;
    assert sign != "" ==> t[0] == sign[0] && t[1..] == body;
    assert sign == "" ==> t == body;
  }

  lemma SignedStart(sign: string, digits: string, rest: string)
    requires AllDigits(digits) && (sign == "" || sign == "+" || sign == "-")
    requires sign == "" && digits == "" ==> rest == [] || (!AllWhite(rest[..1]) && rest[0] != '+' && rest[0] != '-')
    ensures var t := sign + (digits + rest);
      && (t == [] || !AllWhite(t[..1]))
      && (sign == "" ==> t == digits + rest && (t == [] || (t[0] != '+' && t[0] != '-')))
  {
    var body := digits + rest;
    var t := sign + body;
    assert digits != [] ==> body[0] == digits[0];
    assert digits == [] ==> body == rest;
    assert sign == "" ==> t == body;
    if t != [] {
      assert t[..1][0] == t[0];
      if sign == "" && digits == [] {
        assert t[..1] == rest[..1];
      }
    }
  }

  // ----- the characters of the field -----

  /** A digit of the base, in the letter case of the conversion. */
  predicate DigitOf(b: Base, c: char) {
    match b
    case Decimal => '0' <= c <= '9'
    case Octal => '0' <= c <= '7'
    case Hex(upper) => '0' <= c <= '9' || (if upper then 'A' <= c <= 'F' else 'a' <= c <= 'f')
  }

  lemma {:induction false} LowFirstChars(v: nat, b: Base, group: bool, d: nat)
    ensures forall c :: c in LowFirst(v, b, group, d) ==> DigitOf(b, c) || (group && c == ',')
    decreases v
  {
    if v > 0 {
      LowFirstChars(v / Radix(b), b, group, d + 1);
      DigitInBase(b, v);
      hide Digit, DigitOf;
    }
  }

  lemma DigitInBase(b: Base, v: nat)
    ensures DigitOf(b, Digit(b, v))
  {
    if b.Hex? {
      HexDigit(b.upper, v % 16);
    }
  }

  lemma HexDigit(upper: bool, k: nat)
    requires k < 16
    ensures DigitOf(Hex(upper), DigitChars(Hex(upper))[k])
  {
  }

  lemma {:induction false} ReverseChars(s: string)
    ensures forall c :: c in Reverse(s) <==> c in s
  {
    if s != [] {
      ReverseChars(s[1..]);
    }
  }

  lemma BufferChars(v: nat, b: Base, f: Flags, precision: int)
    ensures forall c :: c in Buffer(v, b, f, precision) ==> DigitOf(b, c) || (f.group && c == ',')
  {
    LowFirstChars(v, b, f.group, 0);
    hide LowFirst;
  }

  /** The field is, in this order: spaces, the sign, the 0x or 0X, zeros, the digits, spaces. */
  lemma FieldText(value: nat, isSigned: bool, negative: bool, b: Base, f: Flags, width: int, precision: int)
    returns (sign: string, mark: string, digits: string, left: nat, zeros: nat, right: nat)
    ensures Rendered(value, isSigned, negative, b, f, width, precision)
      == Repeat(' ', left) + sign + mark + Repeat('0', zeros) + digits + Repeat(' ', right)
    ensures isSigned && negative ==> sign == "-"
    ensures isSigned && !negative && f.plus ==> sign == "+"
    ensures isSigned && !negative && !f.plus && f.space ==> sign == " "
    ensures !isSigned || (!negative && !f.plus && !f.space) ==> sign == ""
    ensures mark == if b.Hex? && f.pound && value > 0 then (if b.upper then "0X" else "0x") else ""
    ensures digits == Reverse(Buffer(value, b, f, precision))
    ensures forall i :: 0 <= i < |digits| ==> DigitOf(b, digits[i]) || (f.group && digits[i] == ',')
    ensures var pad := Positive(width - |sign| - |mark| - |digits|);
      && left == (if f.minus || f.zero then 0 else pad)
      && zeros == (if f.zero then pad else 0)
      && right == (if f.minus then pad else 0)
  {
    hide Buffer, Reverse, DigitOf, Layout, Repeat;
    var buf := Buffer(value, b, f, precision);
    sign, mark, digits := SignOf(isSigned, negative, f), HexMark(value, b, f), Reverse(buf);
    DigitsInBase(value, b, f, precision);
    ReverseLength(buf);
    var pad := Positive(width - |buf| - |sign + mark|);
    left, zeros, right := if f.minus || f.zero then 0 else pad, if f.zero then pad else 0, if f.minus then pad else 0;
    LayoutText(sign, mark, digits, pad, f, left, zeros, right);
  }

  lemma DigitsInBase(value: nat, b: Base, f: Flags, precision: int)
    ensures var digits := Reverse(Buffer(value, b, f, precision));
      forall i :: 0 <= i < |digits| ==> DigitOf(b, digits[i]) || (f.group && digits[i] == ',')
  {
    BufferChars(value, b, f, precision);
    ReverseChars(Buffer(value, b, f, precision));
    hide Buffer, Reverse, DigitOf;
  }

  lemma LayoutText(sign: string, mark: string, digits: string, pad: nat, f: Flags, left: nat, zeros: nat, right: nat)
    requires left == (if f.minus || f.zero then 0 else pad) && zeros == (if f.zero then pad else 0)
    requires right == if f.minus then pad else 0
    ensures Layout(sign + mark, digits, pad, f)
      == Repeat(' ', left) + sign + mark + Repeat('0', zeros) + digits + Repeat(' ', right)
  {
    assert Repeat(' ', 0) == "" && Repeat('0', 0) == "";
    var l, z, r := Repeat(' ', left), Repeat('0', zeros), Repeat(' ', right);
    assert Layout(sign + mark, digits, pad, f) == l + (sign + mark) + (z + digits) + r;
    Regroup(l, sign, mark, z, digits, r);
  }

  lemma Regroup(l: string, sign: string, mark: string, z: string, digits: string, r: string)
    ensures l + (sign + mark) + (z + digits) + r == l + sign + mark + z + digits + r
  {
    assert l + (sign + mark) == l + sign + mark;
    assert l + sign + mark + (z + digits) == l + sign + mark + z + digits;
  }

  /** The highest digit is neither 0 nor a comma. */
  lemma {:induction false} TopDigit(v: nat, b: Base, group: bool, d: nat)
    requires v > 0
    ensures var s := LowFirst(v, b, group, d); s != [] && s[|s| - 1] != '0' && s[|s| - 1] != ','
    decreases v
  {
    LowFirstStep(v, b, group, d);
    if v / Radix(b) > 0 {
      TopDigit(v / Radix(b), b, group, d + 1);
    } else {
      DigitMeaning(b, v);
      assert v % Radix(b) == v;
    }
  }

  /** There are as many characters as the precision wants, and no leading zero beyond that but
      the one of an octal number with the # flag. */
  lemma NoNeedlessZeros(v: nat, b: Base, f: Flags, precision: int)
    ensures var s := Buffer(v, b, f, precision); var n := |s|;
      var wanted := if precision < 0 then 1 else if precision < 63 then precision else 63;
      && n >= wanted
      && (!(f.pound && b.Octal?) && n > wanted ==> s[n - 1] != '0')
      && (f.pound && b.Octal? ==> n > 0 && s[n - 1] == '0' && (n > wanted && n > 1 ==> s[n - 2] != '0'))
  {
    hide LowFirst, Filled;
    if v > 0 {
      TopDigit(v, b, f.group, 0);
    } else {
      LowFirstNone(b, f.group, 0);
    }
    FilledTop(LowFirst(v, b, f.group, 0), precision);
  }

  lemma FilledTop(s: string, precision: int)
    requires s == [] || s[|s| - 1] != '0'
    ensures var t := Filled(s, precision); var n := |t|;
      var wanted := if precision < 0 then 1 else if precision < 63 then precision else 63;
      && n >= wanted
      && (n > wanted ==> t[n - 1] != '0')
  {
    if Positive((if precision < 0 then 1 else if precision < 63 then precision else 63) - |s|) == 0 {
      assert Filled(s, precision) == s;
    }
  }

  /** The characters below digit number `d` when there is a comma behind each `g` digits. */
  function CharsBefore(d: nat, g: nat): nat
    requires g > 0
  {
    if d == 0 then 0 else d + (d - 1) / g
  }

  /** The place of a comma: behind four hexadecimal or three other digits, again and again. */
  predicate CommaAt(b: Base, n: nat) { if b.Hex? then n % 5 == 4 else n % 4 == 3 }

  lemma CommaPlace(b: Base, d: nat, n: nat, n': nat)
    requires n == CharsBefore(d, if b.Hex? then 4 else 3) && n' == CharsBefore(d + 1, if b.Hex? then 4 else 3)
    ensures StartsGroup(b, true, d) <==> CommaAt(b, n)
    ensures StartsGroup(b, true, d) ==> !CommaAt(b, n + 1) && n' == n + 2
    ensures !StartsGroup(b, true, d) ==> n' == n + 1
  {
    if b.Hex? {
      CommaAfter4(d);
    } else {
      CommaAfter3(d);
    }
  }

  lemma CommaAfter4(d: nat)
    ensures d > 0 && d % 4 == 0 ==> CharsBefore(d, 4) % 5 == 4 && CharsBefore(d + 1, 4) == CharsBefore(d, 4) + 2
    ensures d == 0 || d % 4 != 0 ==> CharsBefore(d, 4) % 5 != 4 && CharsBefore(d + 1, 4) == CharsBefore(d, 4) + 1
  {
    var q, r := d / 4, d % 4;
    assert r > 0 ==> (d - 1) / 4 == q;
  }

  lemma CommaAfter3(d: nat)
    ensures d > 0 && d % 3 == 0 ==> CharsBefore(d, 3) % 4 == 3 && CharsBefore(d + 1, 3) == CharsBefore(d, 3) + 2
    ensures d == 0 || d % 3 != 0 ==> CharsBefore(d, 3) % 4 != 3 && CharsBefore(d + 1, 3) == CharsBefore(d, 3) + 1
  {
    var q, r := d / 3, d % 3;
    assert r > 0 ==> (d - 1) / 3 == q;
  }

  /** With the group flag the commas are at these places, counted from the lowest digit. */
  lemma GroupPlaces(v: nat, b: Base, i: nat)
    requires i < |LowFirst(v, b, true, 0)|
    ensures LowFirst(v, b, true, 0)[i] == ',' <==> CommaAt(b, i)
  {
    GroupPlacesFrom(v, b, 0, i, 0);
  }

  /** The lowest digit and the rest of the value. */
  lemma LowestDigit(v: nat, b: Base, d: nat) returns (c: char, q: nat)
    requires v > 0
    ensures q < v && c != ','
    ensures LowFirst(v, b, true, d) == (if StartsGroup(b, true, d) then "," else "") + [c] + LowFirst(q, b, true, d + 1)
  {
    c, q := Digit(b, v), v / Radix(b);
    DigitMeaning(b, v);
    hide StartsGroup, Digit;
  }

  lemma {:induction false} GroupPlacesFrom(v: nat, b: Base, d: nat, i: nat, n: nat)
    requires n == CharsBefore(d, if b.Hex? then 4 else 3) && i < |LowFirst(v, b, true, d)|
    ensures LowFirst(v, b, true, d)[i] == ',' <==> CommaAt(b, n + i)
    decreases v
  {
    hide CharsBefore, CommaAt, StartsGroup, LowFirst;
    LowFirstNone(b, true, d);
    var c, q := LowestDigit(v, b, d);
    var n' := CharsBefore(d + 1, if b.Hex? then 4 else 3);
    CommaPlace(b, d, n, n');
    var first := if StartsGroup(b, true, d) then 2 else 1;
    if i >= first {
      GroupPlacesFrom(q, b, d + 1, i - first, n');
    }
  }

  // ----- bounded output -----

  function MinLength(n: nat, max: nat): nat { if n < max then n else max }

  /** `struct vsnprintf_aux` with its helper. */
  class BoundedOutput {
    const buffer: array<char>
    const maxLength: nat
    var p: nat
    var length: nat
    ghost var given: string           // all characters so far

    ghost predicate Valid()
      reads this, buffer
    {
      && length == |given| && p == MinLength(length, maxLength)
      && p <= buffer.Length && maxLength <= buffer.Length
      && buffer[..p] == given[..p]
    }

    constructor (buffer: array<char>, maxLength: nat)
      requires maxLength <= buffer.Length
      ensures Valid() && this.buffer == buffer && this.maxLength == maxLength && given == ""
    {
      this.buffer := buffer;
      this.maxLength := maxLength;
      p := 0;
      length := 0;
      given := "";
    }

    /** `vsnprintf_helper`. */
    method Put(ch: char)
      requires Valid()
      modifies this, buffer
      ensures Valid() && given == old(given) + [ch]
      ensures buffer[maxLength..] == old(buffer[maxLength..])
    {
      if length < maxLength {
        buffer[p] := ch;
        p := p + 1;
      }
      length := length + 1;
      given := given + [ch];
    }
  }

  /** `vsnprintf`, for a format that prints the characters `full`: as many of them as fit
      before a terminator, nothing beyond the given size, and their full number. */
  method Vsnprintf(buffer: array<char>, bufSize: nat, full: string) returns (n: nat)
    requires bufSize <= buffer.Length
    modifies buffer
    ensures n == |full|
    ensures bufSize == 0 ==> buffer[..] == old(buffer[..])
    ensures bufSize > 0 ==>
      var k := MinLength(|full|, bufSize - 1);
      buffer[..k] == full[..k] && buffer[k] == '\0'
    ensures buffer[bufSize..] == old(buffer[bufSize..])
  {
    var max := if bufSize > 0 then bufSize - 1 else 0;
    var aux := new BoundedOutput(buffer, max);
    var i := 0;
    ghost var tail := buffer[max..];
    while i < |full|
      invariant i <= |full| && aux.Valid() && aux.given == full[..i] && aux.buffer == buffer && aux.maxLength == max
      invariant buffer[max..] == tail
      invariant fresh(aux)
    {
      assert full[..i + 1] == full[..i] + [full[i]];
      aux.Put(full[i]);
      i := i + 1;
    }
    assert full[..i] == full;
    assert forall k :: bufSize <= k < buffer.Length ==> buffer[k] == buffer[max..][k - max] == tail[k - max];
    if bufSize > 0 {
      buffer[aux.p] := '\0';
    }
    return aux.length;
  }
}
