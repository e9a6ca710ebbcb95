/** The tar headers of lib/ustar.c, in the "ustar Interchange Format" of the pax utility in
    SUSv3. */
module Ustar {
  import opened Basics
  import opened Stdio

  const HEADER_SIZE: nat := 512

  function Code(s: string): seq<Byte>
    requires forall i :: 0 <= i < |s| ==> s[i] as int < 256
  {
    seq(|s|, i requires 0 <= i < |s| => s[i] as int)
  }

  // ----- the checksum -----

  const CHKSUM_START: nat := 148
  const CHKSUM_END: nat := 156

  /** The checksum's own field counts as spaces. */
  function Octet(h: seq<Byte>, i: nat): nat
    requires i < |h|
  {
    if CHKSUM_START <= i < CHKSUM_END then ' ' as int else h[i]
  }

  ghost function Sum(h: seq<Byte>, n: nat): nat
    requires n <= |h|
  {
    if n == 0 then 0 else Sum(h, n - 1) + Octet(h, n - 1)
  }

  ghost function Chksum(h: seq<Byte>): nat { Sum(h, |h|) }

  /** `calculate_chksum`. */
  method CalculateChksum(header: array<Byte>) returns (chksum: nat)
    ensures chksum == Chksum(header[..])
  {
    chksum := 0;
    var i := 0;
    while i < header.Length
      invariant i <= header.Length && chksum == Sum(header[..], i)
    {
      var inField := CHKSUM_START <= i < CHKSUM_END;
      chksum := chksum + if inField then ' ' as int else header[i];
      i := i + 1;
    }
  }

  /** The sum is that of the octets outside the checksum field. */
  lemma {:induction false} SumSame(h: seq<Byte>, h': seq<Byte>, n: nat)
    requires |h| == |h'| && n <= |h|
    requires forall i: nat :: i < n && !(CHKSUM_START <= i < CHKSUM_END) ==> h'[i] == h[i]
    ensures Sum(h', n) == Sum(h, n)
  {
    if n > 0 {
      SumSame(h, h', n - 1);
    }
  }

  function PlainSum(s: seq<Byte>): nat { if s == [] then 0 else PlainSum(s[..|s| - 1]) + s[|s| - 1] }

  /** The checksum is the sum of the header with eight spaces in place of that field. */
  lemma ChksumMeaning(h: seq<Byte>)
    requires |h| == 512
    ensures Chksum(h) == PlainSum(h[..148] + [32, 32, 32, 32, 32, 32, 32, 32] + h[156..])
  {
    var m := h[..148] + [32, 32, 32, 32, 32, 32, 32, 32] + h[156..];
    forall i: nat | i < 512 ensures m[i] == Octet(h, i) {
      if 148 <= i < 156 {
        assert m[i] == [32, 32, 32, 32, 32, 32, 32, 32][i - 148];
      }
    }
    SumIsPlain(h, m, 512);
    assert m[..512] == m;
  }

  lemma {:induction false} SumIsPlain(h: seq<Byte>, m: seq<Byte>, n: nat)
    requires n <= |h| == |m| && forall i: nat :: i < |h| ==> m[i] == Octet(h, i)
    ensures Sum(h, n) == PlainSum(m[..n])
  {
    if n > 0 {
      SumIsPlain(h, m, n - 1);
      assert m[..n][..n - 1] == m[..n - 1];
    }
  }

  /** A single changed octet changes the sum by the same amount. */
  lemma {:induction false} SumChanged(h: seq<Byte>, i: nat, b: Byte, n: nat)
    requires i < n <= |h| && !(CHKSUM_START <= i < CHKSUM_END)
    ensures Sum(h[i := b], n) - b == Sum(h, n) - h[i]
  {
    if n - 1 == i {
      SumSame(h, h[i := b], n - 1);
    } else {
      SumChanged(h, i, b, n - 1);
    }
  }

  lemma {:induction false} SumBound(h: seq<Byte>, n: nat)
    requires n <= |h|
    ensures Sum(h, n) <= 255 * n
  {
    if n > 0 {
      SumBound(h, n - 1);
    }
  }

  // ----- file names -----

  const SLASH: Byte := 0x2F
  const DOT: Byte := 0x2E

  predicate BadPrefix(name: seq<Byte>) {
    [SLASH] <= name || [DOT, SLASH] <= name || [DOT, DOT, SLASH] <= name
  }

  /** What follows the first slash: `strchr (name, '/') + 1`. */
  function AfterSlash(name: seq<Byte>): (rest: seq<Byte>)
    requires SLASH in name
    ensures |rest| < |name|
  {
    if name[0] == SLASH then name[1..] else AfterSlash(name[1..])
  }

  lemma BadHasSlash(name: seq<Byte>)
    requires BadPrefix(name)
    ensures SLASH in name
  {
    if [SLASH] <= name {
      assert name[0] == SLASH;
    } else if [DOT, SLASH] <= name {
      assert name[1] == SLASH;
    } else if [DOT, DOT, SLASH] <= name {
      assert name[2] == SLASH;
    }
  }

  function Dropped(name: seq<Byte>): seq<Byte>
    decreases |name|
  {
    if BadPrefix(name) then BadHasSlash(name); Dropped(AfterSlash(name)) else name
  }

  /** `strip_antisocial_prefixes`. */
  function Stripped(name: seq<Byte>): seq<Byte> {
    var rest := Dropped(name);
    if rest == [] || rest == [DOT, DOT] then [DOT] else rest
  }

  /** One of the strings "/", "./" and "../". */
  predicate Piece(s: seq<Byte>) { s == [0x2F] || s == [0x2E, 0x2F] || s == [0x2E, 0x2E, 0x2F] }

  /** A concatenation of such pieces. */
  ghost predicate Pieces(s: seq<Byte>)
    decreases |s|
  {
    s == [] || exists n: nat :: 0 < n <= |s| && Piece(s[..n]) && Pieces(s[n..])
  }

  /** The name consists of pieces up to `k`, and of none from there on. */
  ghost predicate SplitAt(name: seq<Byte>, k: nat) {
    k <= |name| && Pieces(name[..k]) && forall n: nat :: n <= |name| - k ==> !Piece(name[k..][..n])
  }

  /** What is left, or "." in place of "" and "..". */
  predicate StripsTo(rest: seq<Byte>, r: seq<Byte>) {
    r == if rest == [] || rest == [0x2E, 0x2E] then [0x2E] else rest
  }

  lemma BadByBytes(name: seq<Byte>)
    ensures [SLASH] <= name <==> |name| >= 1 && name[0] == 0x2F
    ensures [DOT, SLASH] <= name <==> |name| >= 2 && name[0] == 0x2E && name[1] == 0x2F
    ensures [DOT, DOT, SLASH] <= name <==> |name| >= 3 && name[0] == 0x2E && name[1] == 0x2E && name[2] == 0x2F
  {
  }

  lemma PieceByBytes(name: seq<Byte>, n: nat)
    requires n <= |name|
    ensures Piece(name[..n]) <==>
      || (n == 1 && name[0] == 0x2F)
      || (n == 2 && name[0] == 0x2E && name[1] == 0x2F)
      || (n == 3 && name[0] == 0x2E && name[1] == 0x2E && name[2] == 0x2F)
  {
    var p := name[..n];
    assert n == 1 ==> p == [name[0]];
    assert n == 2 ==> p == [name[0], name[1]];
    assert n == 3 ==> p == [name[0], name[1], name[2]];
  }

  lemma {:induction false} SlashAt(name: seq<Byte>, n: nat)
    requires 0 < n <= |name| && name[n - 1] == SLASH && forall i :: 0 <= i < n - 1 ==> name[i] != SLASH
    ensures SLASH in name && AfterSlash(name) == name[n..]
  {
    if n > 1 {
      SlashAt(name[1..], n - 1);
      assert name[1..][n - 1..] == name[n..];
    }
  }

  /** A dangerous prefix is a piece, and it is what the loop takes off. */
  lemma BadIsPiece(name: seq<Byte>) returns (n: nat)
    ensures BadPrefix(name) <==> n > 0
    ensures n > 0 ==> n <= |name| && Piece(name[..n]) && SLASH in name && AfterSlash(name) == name[n..]
    ensures n == 0 ==> forall k: nat :: k <= |name| ==> !Piece(name[..k])
  {
    BadByBytes(name);
    n := if [SLASH] <= name then 1 else if [DOT, SLASH] <= name then 2 else if [DOT, DOT, SLASH] <= name then 3 else 0;
    hide Piece, AfterSlash;
    forall k: nat | k <= |name| ensures Piece(name[..k]) ==> n > 0 {
      PieceByBytes(name, k);
    }
    if n > 0 {
      PieceByBytes(name, n);
      SlashAt(name, n);
    }
  }

  lemma PieceThenSplit(name: seq<Byte>, n: nat, k: nat)
    requires 0 < n <= |name| && Piece(name[..n]) && SplitAt(name[n..], k)
    ensures SplitAt(name, n + k) && name[n + k..] == name[n..][k..]
  {
    hide Piece;
    var front := name[..n + k];
    assert front[..n] == name[..n] && front[n..] == name[n..][..k];
    assert Pieces(front);
    hide Pieces;
    assert name[n + k..] == name[n..][k..];
  }

  /** There is such a split, and the name is stripped to what is behind it. */
  lemma {:induction false} StripSplits(name: seq<Byte>) returns (k: nat)
    ensures SplitAt(name, k) && Dropped(name) == name[k..] && StripsTo(name[k..], Stripped(name))
    decreases |name|
  {
    hide Piece, BadPrefix, AfterSlash;
    var n := BadIsPiece(name);
    if n > 0 {
      hide SplitAt;
      var k' := StripSplits(AfterSlash(name));
      k := n + k';
      PieceThenSplit(name, n, k');
    } else {
      k := 0;
      assert name[0..] == name && Pieces(name[..0]);
    }
  }

  method StripAntisocialPrefixes(fileName: seq<Byte>) returns (r: seq<Byte>)
    ensures r == Stripped(fileName)
    ensures exists k: nat :: SplitAt(fileName, k) && StripsTo(fileName[k..], r)
  {
    ghost var k := StripSplits(fileName);
    r := fileName;
    while BadPrefix(r)
      invariant Dropped(r) == Dropped(fileName)
      decreases |r|
    {
      BadHasSlash(r);
      r := AfterSlash(r);
    }
    if r == [] || r == [DOT, DOT] {
      r := [DOT];
    }
  }

  lemma {:induction false} DroppedIsGood(name: seq<Byte>)
    ensures !BadPrefix(Dropped(name))
    decreases |name|
  {
    if BadPrefix(name) {
      BadHasSlash(name);
      DroppedIsGood(AfterSlash(name));
    }
  }

  /** A stripped name has no dangerous prefix, and stripping it again changes nothing. */
  lemma StripIdempotent(name: seq<Byte>)
    ensures !BadPrefix(Stripped(name)) && Stripped(name) != [] && Stripped(name) != [DOT, DOT]
    ensures Stripped(Stripped(name)) == Stripped(name)
  {
    DroppedIsGood(name);
    assert [DOT][0] != SLASH;
    assert !BadPrefix([DOT]);
  }

  /** A name without such a prefix, other than "" and "..", stays as it is. */
  lemma StripKeeps(name: seq<Byte>)
    requires name != [] && name != [0x2E, 0x2E] && forall n: nat :: n <= |name| ==> !Piece(name[..n])
    ensures Stripped(name) == name
  {
    var n := BadIsPiece(name);
  }

  predicate NoZero(s: seq<Byte>) { forall i :: 0 <= i < |s| ==> s[i] != 0 }

  lemma {:induction false} AfterSlashNoZero(name: seq<Byte>)
    requires SLASH in name && NoZero(name)
    ensures NoZero(AfterSlash(name))
  {
    if name[0] != SLASH {
      AfterSlashNoZero(name[1..]);
    }
  }

  lemma {:induction false} StrippedNoZero(name: seq<Byte>)
    requires NoZero(name)
    ensures NoZero(Dropped(name)) && NoZero(Stripped(name))
    decreases |name|
  {
    if BadPrefix(name) {
      BadHasSlash(name);
      AfterSlashNoZero(name);
      StrippedNoZero(AfterSlash(name));
    }
  }

  /** The C string in a field. */
  function CString(s: seq<Byte>): seq<Byte> {
    if s == [] || s[0] == 0 then [] else [s[0]] + CString(s[1..])
  }

  function Zeros(n: nat): seq<Byte> { seq(n, _ => 0) }

  /** A field of `n` bytes that holds the string `s`. */
  function Padded(s: seq<Byte>, n: nat): (f: seq<Byte>)
    requires |s| <= n
    ensures |f| == n
  {
    s + Zeros(n - |s|)
  }

  lemma {:induction false} PaddedString(s: seq<Byte>, n: nat)
    requires |s| < n && NoZero(s)
    ensures CString(Padded(s, n)) == s
  {
    if s != [] {
      PaddedString(s[1..], n - 1);
      assert Padded(s, n)[1..] == Padded(s[1..], n - 1);
    }
  }

  // ----- octal fields -----

  const ULONG_MAX: nat := 0xFFFF_FFFF

  predicate IsOctal(c: Byte) { '0' as int <= c <= '7' as int }

  /** The value of an octal field that ends in a space or a zero byte. */
  function OctalValue(s: seq<Byte>, first: bool, value: nat): Option<nat> {
    if s == [] then None
    else if IsOctal(s[0]) then
      if value > ULONG_MAX / 8 then None
      else OctalValue(s[1..], false, s[0] - '0' as int + value * 8)
    else if s[0] == ' ' as int || s[0] == 0 then
      if first then None else Some(value)
    else None
  }

  /** `parse_octal_field`. */
  method ParseOctalField(s: seq<Byte>) returns (r: Option<nat>)
    ensures r == OctalValue(s, true, 0)
  {
    var value: nat := 0;
    var ofs := 0;
    while ofs < |s|
      invariant ofs <= |s| && OctalValue(s[ofs..], ofs == 0, value) == OctalValue(s, true, 0)
    {
      var c := s[ofs];
      if IsOctal(c) {
        if value > ULONG_MAX / 8 {
          return None;
        }
        value := c - '0' as int + value * 8;
      } else if c == ' ' as int || c == 0 {
        return if ofs > 0 then Some(value) else None;
      } else {
        return None;
      }
      ofs := ofs + 1;
    }
    return None;
  }

  /** The number of octal digits behind the number `a`. */
  function OctalExtended(a: nat, digits: seq<Byte>): nat
    requires forall i :: 0 <= i < |digits| ==> 0x30 <= digits[i] <= 0x37
    decreases |digits|
  {
    if digits == [] then a else OctalExtended(8 * a + digits[0] - 0x30, digits[1..])
  }

  /** The field starts with `n` octal digits that are the number `v`, and a space or a zero byte
      ends them. */
  ghost predicate ReadsFrom(f: seq<Byte>, a: nat, n: nat, v: nat) {
    && n < |f| && (f[n] == 0x20 || f[n] == 0)
    && (forall i: nat :: i < n ==> 0x30 <= f[i] <= 0x37)
    && v == OctalExtended(a, f[..n])
  }

  /** The field holds at least one such digit, and the number fits in 32 bits. */
  ghost predicate Reads(f: seq<Byte>, v: nat) {
    v < 0x1_0000_0000 && exists n: nat :: n > 0 && ReadsFrom(f, 0, n, v)
  }

  /** `parse_octal_field` succeeds exactly if the field holds a number, and gives that number. */
  lemma OctalMeaning(f: seq<Byte>, v: nat)
    ensures OctalValue(f, true, 0) == Some(v) <==> Reads(f, v)
  {
    OctalFrom(f, true, 0, v);
  }

  lemma {:induction false} OctalFrom(f: seq<Byte>, first: bool, a: nat, v: nat)
    requires a < 0x1_0000_0000
    ensures OctalValue(f, first, a) == Some(v) <==>
      v < 0x1_0000_0000 && exists n: nat :: (first ==> n > 0) && ReadsFrom(f, a, n, v)
    decreases |f|
  {
    if f != [] && IsOctal(f[0]) {
      var next := 8 * a + f[0] - 0x30;
      if a <= ULONG_MAX / 8 {
        OctalFrom(f[1..], false, next, v);
        if n: nat :| ReadsFrom(f[1..], next, n, v) {
          DigitInFront(f, a, n + 1, v);
        }
        if n: nat :| ReadsFrom(f, a, n, v) {
          DigitInFront(f, a, n, v);
        }
      } else if n: nat :| ReadsFrom(f, a, n, v) {
        OctalIsLarger(next, f[1..][..n - 1]);
        assert f[..n][1..] == f[1..][..n - 1];
      }
    } else if f != [] {
      if n: nat :| ReadsFrom(f, a, n, v) {
        assert n == 0;
      }
      if f[0] == 0x20 || f[0] == 0 {
        assert ReadsFrom(f, a, 0, a);
      }
    }
  }

  lemma DigitInFront(f: seq<Byte>, a: nat, n: nat, v: nat)
    requires f != [] && IsOctal(f[0])
    ensures ReadsFrom(f, a, n, v) <==> n > 0 && ReadsFrom(f[1..], 8 * a + f[0] - 0x30, n - 1, v)
  {
    if 0 < n <= |f| {
      assert f[..n][1..] == f[1..][..n - 1] && f[..n][0] == f[0];
      assert forall i: nat :: 0 < i < |f| ==> f[i] == f[1..][i - 1];
    }
  }

  lemma {:induction false} OctalIsLarger(a: nat, digits: seq<Byte>)
    requires forall i :: 0 <= i < |digits| ==> 0x30 <= digits[i] <= 0x37
    ensures OctalExtended(a, digits) >= a
    decreases |digits|
  {
    if digits != [] {
      OctalIsLarger(8 * a + digits[0] - 0x30, digits[1..]);
    }
  }

  const ZERO_PADDED := Flags(false, false, false, false, true, false)

  /** What the conversion %0No prints. */
  function OctalDigits(v: nat, width: nat): string {
    Rendered(v, false, false, Octal, ZERO_PADDED, width, -1)
  }

  predicate OctalString(s: string) { forall i :: 0 <= i < |s| ==> '0' <= s[i] <= '7' }

  /** A number below 8^k has at most k octal digits. */
  lemma {:induction false} OctalLength(v: nat, d: nat, k: nat)
    requires v < Pow8(k)
    ensures |LowFirst(v, Octal, false, d)| <= k && OctalString(LowFirst(v, Octal, false, d))
    decreases v
  {
    if v > 0 {
      OctalLength(v / 8, d + 1, k - 1);
      assert '0' <= Digit(Octal, v) <= '7';
    }
  }

  lemma {:induction false} ReverseOctal(s: string)
    requires OctalString(s)
    ensures OctalString(Reverse(s)) && |Reverse(s)| == |s|
  {
    if s != [] {
      ReverseOctal(s[1..]);
    }
  }

  lemma OctalBuffer(v: nat) returns (n: nat)
    ensures Buffer(v, Octal, ZERO_PADDED, -1) == LowFirst(v, Octal, false, 0) + Repeat('0', n)
    ensures n <= 1 && |LowFirst(v, Octal, false, 0)| + n >= 1 && (n == 1 ==> LowFirst(v, Octal, false, 0) == [])
  {
    n := Positive(1 - |LowFirst(v, Octal, false, 0)|);
  }

  /** %0No prints N octal digits for a number below 8^N: zeros and the number's digits. */
  lemma OctalShape(v: nat, width: nat) returns (z: nat)
    requires v < Pow8(width) && width > 0
    ensures OctalDigits(v, width) == Repeat('0', z) + Reverse(LowFirst(v, Octal, false, 0))
    ensures |OctalDigits(v, width)| == width && OctalString(OctalDigits(v, width))
  {
    hide LowFirst, Reverse, Buffer, Repeat, Layout, OctalString;
    var low := LowFirst(v, Octal, false, 0);
    OctalLength(v, 0, width);
    ReverseOctal(low);
    var n := OctalBuffer(v);
    ReverseAppend(low, Repeat('0', n));
    ReverseRepeat('0', n);
    RepeatLength('0', n);
    var pad := width - |low| - n;
    z := pad + n;
    ZeroLayout(Reverse(low + Repeat('0', n)), pad);
    JoinZeros(pad, n, Reverse(low));
    assert SignOf(false, false, ZERO_PADDED) + HexMark(v, Octal, ZERO_PADDED) == "";
  }

  lemma RepeatLength(c: char, n: nat)
    ensures |Repeat(c, n)| == n
  {
  }

  lemma ZeroLayout(digits: string, pad: nat)
    ensures Layout("", digits, pad, ZERO_PADDED) == Repeat('0', pad) + digits
  {
  }

  lemma JoinZeros(a: nat, b: nat, s: string)
    ensures Repeat('0', a) + (Repeat('0', b) + s) == Repeat('0', a + b) + s
    ensures OctalString(s) ==> OctalString(Repeat('0', a + b) + s)
    ensures |Repeat('0', a + b) + s| == a + b + |s|
  {
  }

  lemma SplitOctal(v: nat, d: nat)
    requires v > 0
    ensures Reverse(LowFirst(v, Octal, false, d)) ==
      Reverse(LowFirst(v / 8, Octal, false, d + 1)) + [Digit(Octal, v)]
  {
    var low, high := [Digit(Octal, v)], LowFirst(v / 8, Octal, false, d + 1);
    assert LowFirst(v, Octal, false, d) == low + high;
    ReverseAppend(low, high);
    assert Reverse(low) == low;
  }

  /** The bytes of octal digits. */
  function OctalBytes(s: string): seq<Byte>
    requires OctalString(s)
  {
    Code(s)
  }

  lemma CodeAppend(s: string, t: string)
    requires OctalString(s + t)
    ensures OctalString(s) && OctalString(t) && OctalBytes(s + t) == OctalBytes(s) + OctalBytes(t)
  {
    assert s == (s + t)[..|s|] && t == (s + t)[|s|..];
  }

  lemma ReadOctalDigit(v: nat, first: bool, rest: seq<Byte>)
    requires 0 < v <= ULONG_MAX && '0' <= Digit(Octal, v) <= '7'
    ensures OctalValue(OctalBytes([Digit(Octal, v)]) + rest, first, v / 8) == OctalValue(rest, false, v)
  {
    var c := OctalBytes([Digit(Octal, v)]);
    assert c[0] == v % 8 + '0' as int;
    assert (c + rest)[1..] == rest;
  }

  /** Reading the octal digits of `v` arrives at `v`. */
  lemma {:induction false} ReadOctal(v: nat, d: nat, first: bool, rest: seq<Byte>)
    requires v <= ULONG_MAX
    ensures OctalString(Reverse(LowFirst(v, Octal, false, d)))
    ensures OctalValue(OctalBytes(Reverse(LowFirst(v, Octal, false, d))) + rest, first, 0)
      == OctalValue(rest, first && v == 0, v)
    decreases v
  {
    hide OctalValue;
    if v == 0 {
      assert OctalBytes(Reverse(LowFirst(v, Octal, false, d))) + rest == rest;
    } else {
      hide Digit, Reverse, LowFirst, OctalBytes, OctalString;
      var high, low := Reverse(LowFirst(v / 8, Octal, false, d + 1)), [Digit(Octal, v)];
      OctalDigitRange(v);
      SplitOctal(v, d);
      ReadOctal(v / 8, d + 1, first, OctalBytes(low) + rest);
      ReadOctalDigit(v, first && v / 8 == 0, rest);
      OctalAppend(high, low);
      CodeAppend(high, low);
      assert OctalBytes(high) + OctalBytes(low) + rest == OctalBytes(high) + (OctalBytes(low) + rest);
    }
  }

  lemma OctalDigitRange(v: nat)
    ensures '0' <= Digit(Octal, v) <= '7' && OctalString([Digit(Octal, v)])
  {
  }

  lemma OctalAppend(s: string, t: string)
    requires OctalString(s) && OctalString(t)
    ensures OctalString(s + t)
  {
  }

  lemma {:induction false} ReadZeros(n: nat, first: bool, rest: seq<Byte>)
    ensures OctalValue(OctalBytes(Repeat('0', n)) + rest, first, 0) == OctalValue(rest, first && n == 0, 0)
  {
    if n == 0 {
      assert OctalBytes(Repeat('0', n)) + rest == rest;
    } else {
      ReadZeros(n - 1, false, rest);
      assert (OctalBytes(Repeat('0', n)) + rest)[1..] == OctalBytes(Repeat('0', n - 1)) + rest;
    }
  }

  /** `parse_octal_field` reads back what %0No puts in a field of N + 1 bytes. */
  lemma OctalRoundTrip(v: nat, width: nat)
    requires v < Pow8(width) && width > 0 && v <= ULONG_MAX
    ensures OctalString(OctalDigits(v, width)) && |OctalDigits(v, width)| == width
    ensures OctalValue(OctalBytes(OctalDigits(v, width)) + [0], true, 0) == Some(v)
  {
    var z := OctalShape(v, width);
    var digits := Reverse(LowFirst(v, Octal, false, 0));
    hide Reverse, LowFirst, OctalValue, Repeat, OctalString;
    CodeAppend(Repeat('0', z), digits);
    ReadZeros(z, true, OctalBytes(digits) + [0]);
    ReadOctal(v, 0, z == 0, [0]);
    assert OctalBytes(Repeat('0', z)) + OctalBytes(digits) + [0] ==
      OctalBytes(Repeat('0', z)) + (OctalBytes(digits) + [0]);
    NoDigits(v, z, width);
    EndOfField(v);
  }

  lemma EndOfField(v: nat)
    ensures OctalValue([0], false, v) == Some(v)
  {
  }

  lemma NoDigits(v: nat, z: nat, width: nat)
    requires |Repeat('0', z) + Reverse(LowFirst(v, Octal, false, 0))| == width > 0
    ensures !(z == 0 && v == 0)
  {
  }

  // ----- headers -----

  datatype Kind = Regular | Directory

  function TypeFlag(k: Kind): Byte { if k.Regular? then '0' as int else '5' as int }

  datatype Error = NotUstar | InvalidVersion | CorruptChksum | ChksumMismatch
                 | NameTooLong | UnimplementedType | CorruptSize | TooLarge

  datatype Parsed = Eof | File(name: seq<Byte>, kind: Kind, size: nat) | Bad(error: Error)

  const MAGIC: seq<Byte> := [0x75, 0x73, 0x74, 0x61, 0x72, 0]     // "ustar"
  const VERSION: seq<Byte> := [0x30, 0x30]                        // "00"
  const ROOT: seq<Byte> := [0x72, 0x6F, 0x6F, 0x74]               // "root"
  const NO_ID: seq<Byte> := [0x30, 0x30, 0x30, 0x30, 0x30, 0x30, 0x30]
  const MTIME: nat := 1136102400

  predicate AllZeros(s: seq<Byte>) { forall i :: 0 <= i < |s| ==> s[i] == 0 }

  /** What a header says: `ustar_parse_header`. */
  ghost function Meaning(h: seq<Byte>): Parsed
    requires |h| == HEADER_SIZE
  {
    if AllZeros(h) then Eof
    else if h[257..263] != MAGIC then Bad(NotUstar)
    else if h[263..265] != VERSION then Bad(InvalidVersion)
    else if OctalValue(h[148..156], true, 0).None? then Bad(CorruptChksum)
    else if OctalValue(h[148..156], true, 0).value != Chksum(h) then Bad(ChksumMismatch)
    else if h[99] != 0 || h[345] != 0 then Bad(NameTooLong)
    else if h[156] != TypeFlag(Regular) && h[156] != TypeFlag(Directory) then Bad(UnimplementedType)
    else if h[156] == TypeFlag(Directory) then File(Stripped(CString(h[0..100])), Directory, 0)
    else match OctalValue(h[124..136], true, 0)
      case None => Bad(CorruptSize)
      case Some(size) => if size > INT_MAX then Bad(TooLarge) else File(Stripped(CString(h[0..100])), Regular, size)
  }

  /** The header does not pass the check that this error reports. */
  ghost predicate Fails(h: seq<Byte>, e: Error)
    requires |h| == 512
  {
    match e
    case NotUstar => h[257..263] != [0x75, 0x73, 0x74, 0x61, 0x72, 0x00]
    case InvalidVersion => h[263] != 0x30 || h[264] != 0x30
    case CorruptChksum => forall v: nat :: !Reads(h[148..156], v)
    case ChksumMismatch => !Reads(h[148..156], PlainSum(h[..148] + [32, 32, 32, 32, 32, 32, 32, 32] + h[156..]))
    case NameTooLong => h[99] != 0 || h[345] != 0
    case UnimplementedType => h[156] != 0x30 && h[156] != 0x35
    case CorruptSize => h[156] == 0x30 && forall v: nat :: !Reads(h[124..136], v)
    case TooLarge => h[156] == 0x30 && forall v: nat :: v <= 0x7FFF_FFFF ==> !Reads(h[124..136], v)
  }

  /** The order of the checks. */
  function Rank(e: Error): nat {
    match e
    case NotUstar => 0
    case InvalidVersion => 1
    case CorruptChksum => 2
    case ChksumMismatch => 3
    case NameTooLong => 4
    case UnimplementedType => 5
    case CorruptSize => 6
    case TooLarge => 7
  }

  /** A block of zeros is the end of the archive.  Of any other header the first check that it
      does not pass is reported; if it passes all, it is a file of the type, the stripped name and
      the size that its fields give. */
  lemma ParseExactly(h: seq<Byte>)
    requires |h| == 512
    ensures Meaning(h).Eof? <==> forall i :: 0 <= i < 512 ==> h[i] == 0
    ensures !Meaning(h).Eof? ==> forall e: Error ::
      Meaning(h) == Bad(e) <==> Fails(h, e) && forall e': Error :: Rank(e') < Rank(e) ==> !Fails(h, e')
    ensures Meaning(h).File? ==> Meaning(h).name == Stripped(CString(h[..100]))
    ensures Meaning(h).File? ==> (Meaning(h).kind.Regular? <==> h[156] == 0x30)
    ensures Meaning(h).File? ==>
      if h[156] == 0x30 then Reads(h[124..136], Meaning(h).size) else Meaning(h).size == 0
  {
    hide OctalValue, Chksum, Reads, PlainSum, Stripped, CString;
    ChecksExactly(h);
    hide Fails;
    assert h[0..100] == h[..100];
  }

  lemma ChecksExactly(h: seq<Byte>)
    requires |h| == 512
    ensures Fails(h, NotUstar) <==> h[257..263] != MAGIC
    ensures Fails(h, InvalidVersion) <==> h[263..265] != VERSION
    ensures Fails(h, CorruptChksum) <==> OctalValue(h[148..156], true, 0).None?
    ensures Fails(h, ChksumMismatch) <==> OctalValue(h[148..156], true, 0) != Some(Chksum(h))
    ensures Fails(h, NameTooLong) <==> h[99] != 0 || h[345] != 0
    ensures Fails(h, UnimplementedType) <==> h[156] != TypeFlag(Regular) && h[156] != TypeFlag(Directory)
    ensures var size := OctalValue(h[124..136], true, 0);
      && (Fails(h, CorruptSize) <==> h[156] == TypeFlag(Regular) && size.None?)
      && (Fails(h, TooLarge) <==> h[156] == TypeFlag(Regular) && !(size.Some? && size.value <= INT_MAX))
      && (size.Some? ==> Reads(h[124..136], size.value))
  {
    hide OctalValue, Chksum, Reads, PlainSum;
    FieldExactly(h[148..156]);
    FieldExactly(h[124..136]);
    ChksumMeaning(h);
    OctalMeaning(h[148..156], Chksum(h));
    assert h[263..265] == [h[263], h[264]];
  }

  lemma FieldExactly(f: seq<Byte>)
    ensures forall v: nat :: OctalValue(f, true, 0) == Some(v) <==> Reads(f, v)
  {
    hide OctalValue, Reads;
    forall v: nat ensures OctalValue(f, true, 0) == Some(v) <==> Reads(f, v) {
      OctalMeaning(f, v);
    }
  }

  /** An octal field as `snprintf` fills it. */
  function OctalField(v: nat, width: nat): (f: seq<Byte>)
    requires OctalString(OctalDigits(v, width))
    ensures |f| == |OctalDigits(v, width)| + 1
  {
    OctalBytes(OctalDigits(v, width)) + [0]
  }

  function Mode(kind: Kind): nat { if kind.Regular? then 0x1A4 else 0x1ED }     // 0644 or 0755

  /** The fields before the checksum. */
  ghost predicate Front(h: seq<Byte>, name: seq<Byte>, kind: Kind, size: nat)
    requires |h| == HEADER_SIZE && |name| < 100 && size <= ULONG_MAX
  {
    Fits();
    && h[0..100] == Padded(name, 100)
    && h[100..108] == OctalField(Mode(kind), 7)
    && h[108..116] == Padded(NO_ID, 8)
    && h[116..124] == Padded(NO_ID, 8)
    && h[124..136] == OctalField(size, 11)
    && h[136..148] == OctalField(MTIME, 11)
  }

  /** The fields after the checksum. */
  ghost predicate Back(h: seq<Byte>, kind: Kind)
    requires |h| == HEADER_SIZE
  {
    && h[156..157] == [TypeFlag(kind)]
    && h[157..257] == Zeros(100)
    && h[257..263] == MAGIC
    && h[263..265] == VERSION
    && h[265..297] == Padded(ROOT, 32)
    && h[297..329] == Padded(ROOT, 32)
    && h[329..512] == Zeros(183)
  }

  /** Every field of a composed header. */
  ghost predicate Composed(h: seq<Byte>, name: seq<Byte>, kind: Kind, size: nat) {
    && |h| == HEADER_SIZE && |name| < 100 && size <= ULONG_MAX
    && Front(h, name, kind, size) && Back(h, kind)
    && (ChksumFits(h); h[148..156] == OctalField(Chksum(h), 7))
  }

  lemma ChksumFits(h: seq<Byte>)
    requires |h| == HEADER_SIZE
    ensures Chksum(h) <= 255 * HEADER_SIZE && OctalString(OctalDigits(Chksum(h), 7)) && |OctalDigits(Chksum(h), 7)| == 7
  {
    SumBound(h, HEADER_SIZE);
    Fits();
  }

  /** All numbers in a header fit their fields. */
  lemma Fits()
    ensures forall v: nat :: v <= 255 * HEADER_SIZE ==> OctalString(OctalDigits(v, 7)) && |OctalDigits(v, 7)| == 7
    ensures forall v: nat :: v <= ULONG_MAX ==> OctalString(OctalDigits(v, 11)) && |OctalDigits(v, 11)| == 11
  {
    assert Pow8(7) == 0x20_0000;
    assert Pow8(11) == 0x2_0000_0000;
    hide OctalDigits;
    forall v: nat | v <= 255 * HEADER_SIZE ensures OctalString(OctalDigits(v, 7)) && |OctalDigits(v, 7)| == 7 {
      OctalRoundTrip(v, 7);
    }
    forall v: nat | v <= ULONG_MAX ensures OctalString(OctalDigits(v, 11)) && |OctalDigits(v, 11)| == 11 {
      OctalRoundTrip(v, 11);
    }
  }

  lemma FieldRoundTrip(v: nat, width: nat)
    requires (width == 7 && v <= 255 * HEADER_SIZE) || (width == 11 && v <= ULONG_MAX)
    ensures OctalString(OctalDigits(v, width)) && OctalValue(OctalField(v, width), true, 0) == Some(v)
  {
    assert Pow8(7) == 0x20_0000;
    assert Pow8(11) == 0x2_0000_0000;
    OctalRoundTrip(v, width);
  }

  /** Reading a composed header gives back name, type and size. */
  lemma ComposedMeaning(h: seq<Byte>, name: seq<Byte>, kind: Kind, size: nat)
    requires Composed(h, name, kind, size) && NoZero(name) && Stripped(name) == name
    ensures Meaning(h) ==
      if kind.Directory? then File(name, kind, 0)
      else if size <= INT_MAX then File(name, kind, size)
      else Bad(TooLarge)
  {
    hide OctalDigits, OctalValue, Chksum, OctalBytes, CString, Stripped, OctalString;
    ChksumFits(h);
    FieldRoundTrip(Chksum(h), 7);
    FieldRoundTrip(size, 11);
    PaddedString(name, 100);
    assert h[257..263][0] == h[257];
    assert h[0..100][99] == h[99];
    assert h[329..512][16] == h[345];
    assert h[156..157][0] == h[156];
  }

  /** The numbers and marks in a composed header. */
  lemma ComposedFields(h: seq<Byte>, name: seq<Byte>, kind: Kind, size: nat)
    requires Composed(h, name, kind, size)
    ensures h[..|name|] == name && forall i :: |name| <= i < 100 ==> h[i] == 0
    ensures Reads(h[100..108], if kind.Regular? then 0x1A4 else 0x1ED)
    ensures Reads(h[108..116], 0) && Reads(h[116..124], 0)
    ensures Reads(h[124..136], size) && Reads(h[136..148], 1136102400)
    ensures Reads(h[148..156], PlainSum(h[..148] + [32, 32, 32, 32, 32, 32, 32, 32] + h[156..]))
    ensures h[156] == if kind.Regular? then 0x30 else 0x35
    ensures h[257..265] == [0x75, 0x73, 0x74, 0x61, 0x72, 0x00, 0x30, 0x30]
  {
    hide OctalDigits, OctalValue, Chksum, OctalBytes, OctalString, Reads, PlainSum;
    ChksumFits(h);
    ChksumMeaning(h);
    FieldReads(Chksum(h), 7);
    FieldReads(Mode(kind), 7);
    FieldReads(size, 11);
    FieldReads(MTIME, 11);
    NoIdReads();
    assert h[156..157][0] == h[156];
    assert h[257..265] == h[257..263] + h[263..265];
    assert h[0..100][..|name|] == name && h[..|name|] == h[0..100][..|name|];
    forall i | |name| <= i < 100 ensures h[i] == 0 {
      assert h[i] == h[0..100][i];
    }
  }

  lemma FieldReads(v: nat, width: nat)
    requires (width == 7 && v <= 255 * HEADER_SIZE) || (width == 11 && v <= ULONG_MAX)
    ensures OctalString(OctalDigits(v, width)) && Reads(OctalField(v, width), v)
  {
    FieldRoundTrip(v, width);
    OctalMeaning(OctalField(v, width), v);
  }

  lemma NoIdReads()
    ensures Reads(Padded(NO_ID, 8), 0)
  {
    var f := Padded(NO_ID, 8);
    assert f == [0x30, 0x30, 0x30, 0x30, 0x30, 0x30, 0x30, 0];
    assert f[1..] == [0x30, 0x30, 0x30, 0x30, 0x30, 0x30, 0] && f[2..] == [0x30, 0x30, 0x30, 0x30, 0x30, 0];
    ZeroDigits(f, 7);
    assert ReadsFrom(f, 0, 7, 0);
  }

  lemma {:induction false} ZeroDigits(f: seq<Byte>, n: nat)
    requires n <= |f| && forall i :: 0 <= i < n ==> f[i] == 0x30
    ensures OctalExtended(0, f[..n]) == 0
  {
    if n > 0 {
      ZeroDigits(f[1..], n - 1);
      assert f[..n][1..] == f[1..][..n - 1];
    }
  }

  /** Changing any one byte outside the checksum field of an accepted header is noticed. */
  lemma ChangeRejected(h: seq<Byte>, i: nat, b: Byte)
    requires |h| == HEADER_SIZE && Meaning(h).File?
    requires i < HEADER_SIZE && !(CHKSUM_START <= i < CHKSUM_END) && b != h[i]
    ensures Meaning(h[i := b]).Bad?
  {
    var h' := h[i := b];
    SumChanged(h, i, b, HEADER_SIZE);
    assert h'[148..156] == h[148..156];
    assert h[257..263][0] == h[257] && h[257..263][1] == h[258];
    assert h'[257] != 0 || h'[258] != 0;
  }

  // ----- composing -----

  /** `t` is `s` with `f` stored at an offset. */
  ghost predicate Stored(s: seq<Byte>, t: seq<Byte>, off: nat, f: seq<Byte>) {
    && off + |f| <= |s| == |t|
    && t[off..off + |f|] == f
    && forall a: nat, b: nat :: a <= b <= |s| && (b <= off || off + |f| <= a) ==> t[a..b] == s[a..b]
  }

  /** Stores `f` at an offset of the header. */
  method SetField(header: array<Byte>, off: nat, f: seq<Byte>)
    requires off + |f| <= header.Length
    modifies header
    ensures Stored(old(header[..]), header[..], off, f)
  {
    ghost var h := header[..];
    var i := 0;
    while i < |f|
      invariant i <= |f|
      invariant forall k :: 0 <= k < header.Length ==>
        header[k] == if off <= k < off + i then f[k - off] else h[k]
    {
      header[off + i] := f[i];
      i := i + 1;
    }
    StoredBytes(h, header[..], off, f);
  }

  lemma StoredBytes(s: seq<Byte>, t: seq<Byte>, off: nat, f: seq<Byte>)
    requires off + |f| <= |s| == |t|
    requires forall k :: 0 <= k < |t| ==> t[k] == if off <= k < off + |f| then f[k - off] else s[k]
    ensures Stored(s, t, off, f)
  {
  }

  /** `snprintf` with %0No into a field of N + 1 bytes that the number fits: the conversion is
      `format_integer`, its output goes through `vsnprintf_helper`. */
  method SetOctal(header: array<Byte>, off: nat, v: nat, width: nat)
    requires off + width + 1 <= header.Length && v <= UINTMAX
    requires OctalString(OctalDigits(v, width)) && |OctalDigits(v, width)| == width
    modifies header
    ensures Stored(old(header[..]), header[..], off, OctalField(v, width))
  {
    hide Rendered;
    var digits := FormatInteger(v, false, false, Octal, ZERO_PADDED, width, -1);
    var field := new char[width + 1];
    var n := Vsnprintf(field, width + 1, digits);
    assert digits[..width] == digits;
    PrintedField(field[..], digits);
    SetField(header, off, Code(field[..]));
  }

  lemma PrintedField(field: string, digits: string)
    requires OctalString(digits) && |field| == |digits| + 1
    requires field[..|digits|] == digits && field[|digits|] == '\0'
    ensures (forall c :: c in field ==> c as int < 256) && Code(field) == OctalBytes(digits) + [0]
  {
    assert field == digits + ['\0'];
  }

  /** `strlcpy` into a field of `n` zero bytes. */
  method SetString(header: array<Byte>, off: nat, n: nat, s: seq<Byte>)
    requires off + n <= header.Length && |s| < n && header[..][off..off + n] == Zeros(n)
    modifies header
    ensures Stored(old(header[..]), header[..], off, Padded(s, n))
  {
    ghost var h := header[..];
    SetField(header, off, s + [0]);
    PadRest(h, header[..], off, n, s);
  }

  lemma PadRest(h: seq<Byte>, t: seq<Byte>, off: nat, n: nat, s: seq<Byte>)
    requires off + n <= |h| && |s| < n && h[off..off + n] == Zeros(n) && Stored(h, t, off, s + [0])
    ensures Stored(h, t, off, Padded(s, n))
  {
    var m := off + |s| + 1;
    assert t[m..off + n] == h[m..off + n] == h[off..off + n][|s| + 1..];
    assert t[off..off + n] == t[off..m] + t[m..off + n];
  }

  /** The part of `ustar_make_header` before the type flag. */
  method FillFront(header: array<Byte>, name: seq<Byte>, kind: Kind, size: nat)
    requires header.Length == HEADER_SIZE && |name| < 100 && size <= ULONG_MAX && header[..] == Zeros(HEADER_SIZE)
    modifies header
    ensures Front(header[..], name, kind, size) && header[..][148..512] == Zeros(364)
  {
    hide OctalField, OctalString, OctalDigits, Padded;
    Fits();
    assert header[..][0..100] == Zeros(100);
    assert header[..][108..116] == header[..][116..124] == Zeros(8);
    assert header[..][148..512] == Zeros(364);
    SetString(header, 0, 100, name);
    SetOctal(header, 100, Mode(kind), 7);
    SetString(header, 108, 8, NO_ID);
    SetString(header, 116, 8, NO_ID);
    SetOctal(header, 124, size, 11);
    SetOctal(header, 136, MTIME, 11);
  }

  ghost predicate SameFront(s: seq<Byte>, t: seq<Byte>)
    requires |s| == |t| == HEADER_SIZE
  {
    forall a: nat, b: nat :: a <= b <= 148 ==> t[a..b] == s[a..b]
  }

  /** The part of `ustar_make_header` from the type flag to the user name. */
  method FillBack(header: array<Byte>, kind: Kind)
    requires header.Length == HEADER_SIZE && header[..][148..512] == Zeros(364)
    modifies header
    ensures Back(header[..], kind) && SameFront(old(header[..]), header[..])
  {
    hide Padded;
    ZeroParts(header[..]);
    SetField(header, 156, [TypeFlag(kind)]);
    SetField(header, 257, MAGIC);
    SetField(header, 263, VERSION);
    SetString(header, 297, 32, ROOT);
    SetString(header, 265, 32, ROOT);
  }

  lemma ZeroPart(h: seq<Byte>, a: nat, b: nat)
    requires |h| == HEADER_SIZE && h[148..512] == Zeros(364) && 148 <= a <= b <= 512
    ensures h[a..b] == Zeros(b - a)
  {
    assert forall k :: 148 <= k < 512 ==> h[k] == h[148..512][k - 148];
  }

  lemma ZeroParts(h: seq<Byte>)
    requires |h| == HEADER_SIZE && h[148..512] == Zeros(364)
    ensures h[157..257] == Zeros(100) && h[265..297] == h[297..329] == Zeros(32) && h[329..512] == Zeros(183)
  {
    ZeroPart(h, 157, 257);
    ZeroPart(h, 265, 297);
    ZeroPart(h, 297, 329);
    ZeroPart(h, 329, 512);
  }

  /** `ustar_make_header`: it fails exactly for a name that is too long; what it composes
      reads back as the stripped name, the type and the size. */
  method MakeHeader(header: array<Byte>, fileName: seq<Byte>, kind: Kind, size: int) returns (ok: bool)
    requires header.Length == HEADER_SIZE && NoZero(fileName) && INT_MIN <= size <= INT_MAX
    modifies header
    ensures ok <==> |Stripped(fileName)| <= 99
    ensures ok ==> Composed(header[..], Stripped(fileName), kind, Unsigned(size))
    ensures ok && (size >= 0 || kind.Directory?) ==>
      Meaning(header[..]) == File(Stripped(fileName), kind, if kind.Regular? then size else 0)
    ensures ok && size < 0 && kind.Regular? ==> Meaning(header[..]) == Bad(TooLarge)
    ensures !ok ==> header[..] == old(header[..])
  {
    hide Stripped, Meaning, Front, Back, OctalField, Chksum;
    var name := StripAntisocialPrefixes(fileName);
    if |name| > 99 {
      return false;
    }
    StripIdempotent(fileName);
    StrippedNoZero(fileName);
    forall i | 0 <= i < header.Length {
      header[i] := 0;
    }
    assert header[..] == Zeros(HEADER_SIZE);
    FillFront(header, name, kind, Unsigned(size));
    ghost var front := header[..];
    FillBack(header, kind);
    ghost var h := header[..];
    var chksum := CalculateChksum(header);
    ChksumFits(h);
    FrontKept(front, h, name, kind, Unsigned(size));
    SetOctal(header, 148, chksum, 7);
    Completed(h, header[..], name, kind, Unsigned(size));
    ComposedMeaning(header[..], name, kind, Unsigned(size));
    return true;
  }

  /** An `int` passed where printf expects an unsigned one. */
  function Unsigned(size: int): nat
    requires INT_MIN <= size <= INT_MAX
  {
    if size < 0 then size + ULONG_MAX + 1 else size
  }

  lemma FrontKept(h: seq<Byte>, t: seq<Byte>, name: seq<Byte>, kind: Kind, size: nat)
    requires |h| == |t| == HEADER_SIZE && |name| < 100 && size <= ULONG_MAX
    requires Front(h, name, kind, size) && SameFront(h, t)
    ensures Front(t, name, kind, size)
  {
    hide OctalField, Padded;
  }

  /** Storing the checksum does not change it. */
  lemma Completed(h: seq<Byte>, t: seq<Byte>, name: seq<Byte>, kind: Kind, size: nat)
    requires |h| == HEADER_SIZE && |name| < 100 && size <= ULONG_MAX
    requires Front(h, name, kind, size) && Back(h, kind)
    requires (ChksumFits(h); Stored(h, t, 148, OctalField(Chksum(h), 7)))
    ensures Composed(t, name, kind, size)
  {
    hide OctalField, Padded;
    ChksumFits(h);
    forall i: nat | i < HEADER_SIZE && !(148 <= i < 156) ensures t[i] == h[i] {
      assert t[i..i + 1][0] == h[i..i + 1][0];
    }
    SumSame(h, t, HEADER_SIZE);
    ChksumFits(t);
  }

  // ----- parsing -----

  /** `is_all_zeros`. */
  method IsAllZeros(header: array<Byte>) returns (r: bool)
    ensures r == AllZeros(header[..])
  {
    var i := 0;
    while i < header.Length
      invariant i <= header.Length && AllZeros(header[..i])
    {
      if header[i] != 0 {
        return false;
      }
      i := i + 1;
    }
    assert header[..i] == header[..];
    return true;
  }

  /** `ustar_parse_header`. */
  method ParseHeader(header: array<Byte>) returns (r: Parsed)
    requires header.Length == HEADER_SIZE
    ensures r == Meaning(header[..])
  {
    hide OctalValue, Chksum, Stripped, CString, AllZeros;
    ghost var h := header[..];
    assert forall a: nat, b: nat :: a <= b <= HEADER_SIZE ==> header[a..b] == h[a..b];
    var eof := IsAllZeros(header);
    if eof {
      return Eof;
    }
    if header[257..263] != MAGIC {
      return Bad(NotUstar);
    }
    if header[263..265] != VERSION {
      return Bad(InvalidVersion);
    }
    var field := ParseOctalField(header[148..156]);
    if field.None? {
      return Bad(CorruptChksum);
    }
    var chksum := CalculateChksum(header);
    if field.value != chksum {
      return Bad(ChksumMismatch);
    }
    if header[99] != 0 || header[345] != 0 {
      return Bad(NameTooLong);
    }
    if header[156] != TypeFlag(Regular) && header[156] != TypeFlag(Directory) {
      return Bad(UnimplementedType);
    }
    var size: nat := 0;
    if header[156] == TypeFlag(Regular) {
      var s := ParseOctalField(header[124..136]);
      if s.None? {
        return Bad(CorruptSize);
      }
      if s.value > INT_MAX {
        return Bad(TooLarge);
      }
      size := s.value;
    }
    var name := StripAntisocialPrefixes(CString(header[0..100]));
    return File(name, if header[156] == TypeFlag(Regular) then Regular else Directory, size);
  }
}
