/** CRC-32 as in section 8 of RFC 1952: the table-driven update loop, schoolbook polynomial
    division over GF(2), and the burst errors the checksum is chosen for.

    A machine word or byte is the sequence of its bits, least significant first. */
module Crc32 {

  type Word = w: seq<bool> | |w| == 32 witness Zeros(32)
  type Byte = b: seq<bool> | |b| == 8 witness Zeros(8)

  function Zeros(n: nat): (z: seq<bool>)
    ensures |z| == n && forall i :: 0 <= i < n ==> !z[i]
  {
    if n == 0 then [] else Zeros(n - 1) + [false]
  }

  /** The k low bits of n. */
  function Bits(n: nat, k: nat): (bits: seq<bool>)
    ensures |bits| == k
    decreases k
  {
    if k == 0 then [] else [n % 2 == 1] + Bits(n / 2, k - 1)
  }

  function Number(bits: seq<bool>): nat {
    if bits == [] then 0 else (if bits[0] then 1 else 0) + 2 * Number(bits[1..])
  }

  /** The bitwise exclusive or of a with the low bits of b. */
  function XorLow(a: seq<bool>, b: seq<bool>): (r: seq<bool>)
    requires |a| <= |b|
    ensures |r| == |b|
    ensures forall i :: 0 <= i < |b| ==> r[i] == if i < |a| then a[i] != b[i] else b[i]
  {
    seq(|b|, i requires 0 <= i < |b| => if i < |a| then a[i] != b[i] else b[i])
  }

  function ShiftRight(w: Word, n: nat): Word
    requires n <= 32
  {
    w[n..] + Zeros(n)
  }

  function Complement(w: Word): (r: Word)
    ensures forall i :: 0 <= i < 32 ==> r[i] == !w[i]
  {
    seq(32, i requires 0 <= i < 32 => !w[i])
  }

  /** The CRC-32 generator without its leading term x^32; bit i is the coefficient of x^(31 - i). */
  function Polynomial(): (p: Word)
    ensures p[31]
  {
    var f, t := false, true;
    [f, f, f, f, f, t, f, f] + [t, t, f, f, f, f, f, t] + [f, f, f, t, t, t, f, t] + [t, f, t, t, f, t, t, t]
  }

  /** The four bits of w from bit k on, as a number. */
  function HexDigit(w: Word, k: nat): nat
    requires k <= 28
  {
    (if w[k] then 1 else 0) + (if w[k + 1] then 2 else 0) + (if w[k + 2] then 4 else 0) + if w[k + 3] then 8 else 0
  }

  lemma NumberFrom(w: Word, k: nat)
    requires k <= 28
    ensures Number(w[k..]) == HexDigit(w, k) + 16 * Number(w[k + 4..])
  {
    assert w[k..][1..] == w[k + 1..] && w[k + 1..][1..] == w[k + 2..];
    assert w[k + 2..][1..] == w[k + 3..] && w[k + 3..][1..] == w[k + 4..];
    assert Number(w[k + 2..]) == (if w[k + 2] then 1 else 0) + 2 * Number(w[k + 3..]);
  }

  lemma NumberFromHalf(w: Word, k: nat)
    requires k <= 16
    ensures Number(w[k..]) == HexDigit(w, k) + 0x10 * HexDigit(w, k + 4) + 0x100 * HexDigit(w, k + 8)
                            + 0x1000 * HexDigit(w, k + 12) + 0x1_0000 * Number(w[k + 16..])
  {
    NumberFrom(w, k); NumberFrom(w, k + 4); NumberFrom(w, k + 8); NumberFrom(w, k + 12);
  }

  lemma NumberInHex(w: Word)
    ensures Number(w) == HexDigit(w, 0) + 0x10 * HexDigit(w, 4) + 0x100 * HexDigit(w, 8) + 0x1000 * HexDigit(w, 12)
                       + 0x1_0000 * (HexDigit(w, 16) + 0x10 * HexDigit(w, 20) + 0x100 * HexDigit(w, 24)
                           + 0x1000 * HexDigit(w, 28))
  {
    assert w[0..] == w && w[32..] == [];
    NumberFromHalf(w, 0);
    NumberFromHalf(w, 16);
  }

  /** Polynomial is kCrc32Polynomial of the source. */
  lemma PolynomialIsConstant()
    ensures Number(Polynomial()) == 0xEDB88320
  {
    NumberInHex(Polynomial());
  }

  // ----- The register, for any divisor x^32 + p of degree 32 -----

  /** One division step of the reversed register: bit 0 holds the highest-order coefficient. */
  function Step(p: Word, c: Word): Word {
    if c[0] then XorLow(p, ShiftRight(c, 1)) else ShiftRight(c, 1)
  }

  /** Feeds message bits into the register one at a time. */
  function Feed(p: Word, c: Word, bits: seq<bool>): Word
    decreases |bits|
  {
    if bits == [] then c else Feed(p, Step(p, XorLow([bits[0]], c)), bits[1..])
  }

  /** A message as the bit string that enters the CRC: each byte least significant bit first. */
  function MessageBits(msg: seq<Byte>): (bits: seq<bool>)
    ensures |bits| == 8 * |msg|
  {
    if msg == [] then [] else msg[0] + MessageBits(msg[1..])
  }

  /** The checksum bit by bit, with the complement taken before and after. */
  function BitwiseCrc(p: Word, start: Word, bits: seq<bool>): Word {
    Complement(Feed(p, Complement(start), bits))
  }

  // ----- Schoolbook division: coefficients from the highest degree down -----

  /** Remainder of the dividend by x^32 + (the 32 lower coefficients of the divisor). */
  function Remainder(dividend: seq<bool>, divisor: seq<bool>): (r: seq<bool>)
    requires |divisor| == 32 <= |dividend|
    ensures |r| == 32
    decreases |dividend|
  {
    if |dividend| == 32 then dividend
    else if dividend[0] then Remainder(XorLow(divisor, dividend[1..]), divisor)
    else Remainder(dividend[1..], divisor)
  }

  /** One step of the register is one row of the long division. */
  lemma StepIsRow(p: Word, c: Word, b: bool, rest: seq<bool>)
    requires |rest| >= 32
    ensures var d := XorLow(c, [b] + rest);
            XorLow(Step(p, XorLow([b], c)), rest) == if d[0] then XorLow(p, d[1..]) else d[1..]
  {}

  /** The register after any message is the remainder of the message followed by 32 zeros,
      the starting register having been added to the leading coefficients. */
  lemma {:induction false} FeedIsRemainder(p: Word, c: Word, bits: seq<bool>)
    ensures Feed(p, c, bits) == Remainder(XorLow(c, bits + Zeros(32)), p)
    decreases |bits|
  {
    var d := XorLow(c, bits + Zeros(32));
    if bits == [] {
      assert d == c;
    } else {
      assert bits + Zeros(32) == [bits[0]] + (bits[1..] + Zeros(32));
      StepIsRow(p, c, bits[0], bits[1..] + Zeros(32));
      FeedIsRemainder(p, Step(p, XorLow([bits[0]], c)), bits[1..]);
    }
  }

  /** The checksum is the complement of the remainder of the extended message, whose 32 leading
      coefficients are those of the message plus the complement of the starting value. */
  lemma CrcIsRemainder(p: Word, start: Word, bits: seq<bool>)
    ensures Complement(BitwiseCrc(p, start, bits)) == Remainder(XorLow(Complement(start), bits + Zeros(32)), p)
  {
    FeedIsRemainder(p, Complement(start), bits);
  }

  /** The same bit by bit: the first 32 coefficients are inverted where the starting value has a zero, and the
      checksum is the remainder with every bit inverted. */
  lemma CrcIsInverted(p: Word, start: Word, bits: seq<bool>, dividend: seq<bool>)
    requires |dividend| == |bits| + 32
    requires forall i :: 0 <= i < |dividend| ==> dividend[i] == ((i < |bits| && bits[i]) != (i < 32 && !start[i]))
    ensures forall i :: 0 <= i < 32 ==> BitwiseCrc(p, start, bits)[i] == !Remainder(dividend, p)[i]
  {
    CrcIsRemainder(p, start, bits);
    assert XorLow(Complement(start), bits + Zeros(32)) == dividend;
  }

  // ----- Linearity, and the byte table -----

  lemma StepLinear(p: Word, a: Word, b: Word)
    ensures Step(p, XorLow(a, b)) == XorLow(Step(p, a), Step(p, b))
  {}

  lemma XorBits(u: bool, c: Word, v: bool, d: Word)
    ensures XorLow(XorLow([u], c), XorLow([v], d)) == XorLow([u != v], XorLow(c, d))
  {}

  lemma {:induction false} FeedLinear(p: Word, c: Word, a: seq<bool>, d: Word, b: seq<bool>)
    requires |a| == |b|
    ensures XorLow(Feed(p, c, a), Feed(p, d, b)) == Feed(p, XorLow(c, d), XorLow(a, b))
    decreases |a|
  {
    if a != [] {
      var x: Word, y: Word := XorLow([a[0]], c), XorLow([b[0]], d);
      FeedLinear(p, Step(p, x), a[1..], Step(p, y), b[1..]);
      XorBits(a[0], c, b[0], d);
      StepLinear(p, x, y);
      assert XorLow(a, b)[1..] == XorLow(a[1..], b[1..]);
    }
  }

  lemma BlankStep(p: Word, c: Word, n: nat)
    ensures Feed(p, c, Zeros(n + 1)) == Feed(p, Step(p, c), Zeros(n))
  {
    assert XorLow([false], c) == c;
    assert Zeros(n + 1)[1..] == Zeros(n);
  }

  lemma {:induction false} BlankSteps(p: Word, c: Word, n: nat)
    requires n <= 32 && forall i :: 0 <= i < n ==> !c[i]
    ensures Feed(p, c, Zeros(n)) == ShiftRight(c, n)
    decreases n
  {
    if n > 0 {
      BlankStep(p, c, n - 1);
      BlankSteps(p, Step(p, c), n - 1);
    }
  }

  lemma StepOfSum(p: Word, c: Word, bits: seq<bool>)
    requires 0 < |bits| <= 32
    ensures Step(p, XorLow(bits, c)) == XorLow(bits[1..], Step(p, XorLow([bits[0]], c)))
  {}

  /** Feeding a few bits one by one is adding them all to the register and then shifting. */
  lemma {:induction false} FeedAtOnce(p: Word, c: Word, bits: seq<bool>)
    requires |bits| <= 32
    ensures Feed(p, c, bits) == Feed(p, XorLow(bits, c), Zeros(|bits|))
    decreases |bits|
  {
    if bits == [] {
      assert XorLow(bits, c) == c;
    } else {
      var s := Step(p, XorLow([bits[0]], c));
      BlankStep(p, XorLow(bits, c), |bits| - 1);
      StepOfSum(p, c, bits);
      FeedAtOnce(p, s, bits[1..]);
    }
  }

  /** What the table holds for the index with these bits. */
  function Entry(p: Word, bits: seq<bool>): Word
    requires |bits| <= 32
  {
    Feed(p, bits + Zeros(32 - |bits|), Zeros(|bits|))
  }

  lemma BlanksLinear(p: Word, c: Word, d: Word, n: nat)
    ensures Feed(p, XorLow(c, d), Zeros(n)) == XorLow(Feed(p, c, Zeros(n)), Feed(p, d, Zeros(n)))
  {
    assert XorLow(Zeros(n), Zeros(n)) == Zeros(n);
    FeedLinear(p, c, Zeros(n), d, Zeros(n));
  }

  lemma SplitWord(c: Word, n: nat)
    requires n <= 32
    ensures var low: Word, high: Word := c[..n] + Zeros(32 - n), Zeros(n) + c[n..];
            c == XorLow(low, high) && ShiftRight(high, n) == ShiftRight(c, n)
  {}

  /** A table lookup on the low bits of the register replaces n single steps. */
  lemma LookupStep(p: Word, c: Word, n: nat)
    requires n <= 32
    ensures Feed(p, c, Zeros(n)) == XorLow(Entry(p, c[..n]), ShiftRight(c, n))
  {
    var low: Word, high: Word := c[..n] + Zeros(32 - n), Zeros(n) + c[n..];
    assert Entry(p, c[..n]) == Feed(p, low, Zeros(n));
    SplitWord(c, n);
    BlanksLinear(p, low, high, n);
    BlankSteps(p, high, n);
  }

  lemma ByteStep(p: Word, c: Word, bits: seq<bool>)
    requires |bits| <= 32
    ensures Feed(p, c, bits) == XorLow(Entry(p, XorLow(bits, c[..|bits|])), ShiftRight(c, |bits|))
  {
    var x: Word := XorLow(bits, c);
    FeedAtOnce(p, c, bits);
    LookupStep(p, x, |bits|);
    assert x[..|bits|] == XorLow(bits, c[..|bits|]);
    assert ShiftRight(x, |bits|) == ShiftRight(c, |bits|);
  }

  lemma {:induction false} FeedConcat(p: Word, c: Word, a: seq<bool>, b: seq<bool>)
    ensures Feed(p, c, a + b) == Feed(p, Feed(p, c, a), b)
    decreases |a|
  {
    if a == [] {
      assert a + b == b;
    } else {
      assert (a + b)[1..] == a[1..] + b;
      FeedConcat(p, Step(p, XorLow([a[0]], c)), a[1..], b);
    }
  }

  lemma {:induction false} MessageBitsConcat(a: seq<Byte>, b: seq<Byte>)
    ensures MessageBits(a + b) == MessageBits(a) + MessageBits(b)
  {
    if a == [] {
      assert a + b == b;
    } else {
      assert (a + b)[1..] == a[1..] + b;
      MessageBitsConcat(a[1..], b);
    }
  }

  function Pow2(k: nat): nat { if k == 0 then 1 else 2 * Pow2(k - 1) }

  lemma {:induction false} BitsOfNumber(bits: seq<bool>)
    ensures Number(bits) < Pow2(|bits|)
    ensures Bits(Number(bits), |bits|) == bits
  {
    if bits != [] {
      BitsOfNumber(bits[1..]);
      assert Number(bits) / 2 == Number(bits[1..]);
    }
  }

  // ----- The source's table and update loop -----

  /** The first n entries are right: an index is given by its eight bits. */
  ghost predicate IsTable(p: Word, table: array<Word>, n: nat)
    reads table
  {
    table.Length == 256 && forall x: seq<bool> :: |x| == 8 && Number(x) < n <= 256 ==> table[Number(x)] == Entry(p, x)
  }

  method LoadCrc32Table() returns (table: array<Word>)
    ensures fresh(table) && IsTable(Polynomial(), table, 256)
  {
    table := new Word[256];
    for i := 0 to 256
      invariant IsTable(Polynomial(), table, i)
    {
      var c := TableEntry(i);
      forall x: seq<bool> | |x| == 8 && Number(x) == i ensures x == Bits(i, 8) {
        NumberOfIndex(x);
      }
      table[i] := c;
    }
  }

  lemma NumberOfIndex(x: seq<bool>)
    requires |x| == 8
    ensures Number(x) < 256 && Bits(Number(x), 8) == x
  {
    BitsOfNumber(x);
    assert Pow2(8) == 256;
  }

  /** The inner loop of the table construction. */
  method TableEntry(i: nat) returns (c: Word)
    ensures c == Entry(Polynomial(), Bits(i, 8))
  {
    ghost var p := Polynomial();
    c := Bits(i, 8) + Zeros(24);
    for j := 0 to 8
      invariant Feed(p, c, Zeros(8 - j)) == Entry(p, Bits(i, 8))
    {
      BlankStep(p, c, 7 - j);
      if c[0] {
        c := XorLow(Polynomial(), ShiftRight(c, 1));
      } else {
        c := ShiftRight(c, 1);
      }
    }
  }

  /** The table-driven update is the bit-at-a-time checksum. */
  method UpdateCrc32(start: Word, buf: seq<Byte>) returns (r: Word)
    ensures r == BitwiseCrc(Polynomial(), start, MessageBits(buf))
  {
    ghost var p := Polynomial();
    var table := LoadCrc32Table();
    var c := Complement(start);
    for i := 0 to |buf|
      invariant IsTable(p, table, 256)
      invariant c == Feed(p, Complement(start), MessageBits(buf[..i]))
    {
      var index := XorLow(buf[i], c[..8]);
      NumberOfIndex(index);
      FeedByte(p, Complement(start), buf, i);
      c := XorLow(table[Number(index)], ShiftRight(c, 8));
    }
    assert buf[..|buf|] == buf;
    r := Complement(c);
  }

  lemma {:induction false} FeedByte(p: Word, first: Word, buf: seq<Byte>, i: nat)
    requires i < |buf|
    ensures var c := Feed(p, first, MessageBits(buf[..i]));
            Feed(p, first, MessageBits(buf[..i + 1])) == XorLow(Entry(p, XorLow(buf[i], c[..8])), ShiftRight(c, 8))
  {
    MessageBitsSnoc(buf, i);
    FeedConcat(p, first, MessageBits(buf[..i]), buf[i]);
    ByteStep(p, Feed(p, first, MessageBits(buf[..i])), buf[i]);
  }

  lemma MessageBitsSnoc(buf: seq<Byte>, i: nat)
    requires i < |buf|
    ensures MessageBits(buf[..i + 1]) == MessageBits(buf[..i]) + buf[i]
  {
    assert buf[..i + 1] == buf[..i] + [buf[i]];
    MessageBitsConcat(buf[..i], [buf[i]]);
    assert MessageBits([buf[i]]) == buf[i];
  }

  /** Updating with a and then with b is one update with their concatenation. */
  lemma {:induction false} UpdateConcat(p: Word, start: Word, a: seq<Byte>, b: seq<Byte>)
    ensures BitwiseCrc(p, BitwiseCrc(p, start, MessageBits(a)), MessageBits(b))
            == BitwiseCrc(p, start, MessageBits(a + b))
  {
    var first: Word := Complement(start);
    var c := Feed(p, first, MessageBits(a));
    assert Complement(Complement(c)) == c;
    FeedConcat(p, first, MessageBits(a), MessageBits(b));
    MessageBitsConcat(a, b);
  }

  // ----- Burst errors -----

  lemma StepInjective(p: Word, c: Word, d: Word)
    requires p[31] && Step(p, c) == Step(p, d)
    ensures c == d
  {
    assert Step(p, c)[31] == c[0] && Step(p, d)[31] == d[0];
    assert ShiftRight(c, 1) == if c[0] then XorLow(p, Step(p, c)) else Step(p, c);
    assert ShiftRight(d, 1) == if d[0] then XorLow(p, Step(p, d)) else Step(p, d);
    assert c == [c[0]] + ShiftRight(c, 1)[..31] && d == [d[0]] + ShiftRight(d, 1)[..31];
  }

  lemma {:induction false} FeedInjective(p: Word, c: Word, d: Word, bits: seq<bool>)
    requires p[31] && Feed(p, c, bits) == Feed(p, d, bits)
    ensures c == d
    decreases |bits|
  {
    if bits != [] {
      var c': Word, d': Word := XorLow([bits[0]], c), XorLow([bits[0]], d);
      FeedInjective(p, Step(p, c'), Step(p, d'), bits[1..]);
      StepInjective(p, c', d');
      assert c == XorLow([bits[0]], c') && d == XorLow([bits[0]], d');
    }
  }

  /** n more bits can bring the register to zero only if it is below 2^n. */
  lemma {:induction false} VanishingIsSmall(p: Word, d: Word, bits: seq<bool>)
    requires Feed(p, d, bits) == Zeros(32)
    requires p[31] && |bits| <= 31
    ensures forall i :: |bits| <= i < 32 ==> !d[i]
    decreases |bits|
  {
    if bits != [] {
      var x: Word := XorLow([bits[0]], d);
      VanishingIsSmall(p, Step(p, x), bits[1..]);
      assert Step(p, x)[31] == x[0];
      forall i | |bits| <= i < 32 ensures !d[i] {
        assert ShiftRight(x, 1)[i - 1] == x[i];
      }
    }
  }

  lemma {:induction false} ErrorSurvives(p: Word, e: seq<bool>)
    requires p[31] && |e| <= 32 && true in e
    ensures Feed(p, Zeros(32), e) != Zeros(32)
    decreases |e|
  {
    var s := Step(p, XorLow([e[0]], Zeros(32)));
    if e[0] {
      assert s == p;
      if Feed(p, s, e[1..]) == Zeros(32) {
        VanishingIsSmall(p, s, e[1..]);
      }
    } else {
      assert s == Zeros(32);
      ErrorSurvives(p, e[1..]);
    }
  }

  /** Any burst of at most 32 consecutive bits changes the checksum, wherever it starts. */
  lemma BurstDetected(p: Word, start: Word, before: seq<bool>, a: seq<bool>, b: seq<bool>, after: seq<bool>)
    requires p[31] && |a| == |b| <= 32 && a != b
    ensures BitwiseCrc(p, start, before + a + after) != BitwiseCrc(p, start, before + b + after)
  {
    var first: Word := Complement(start);
    var c := Feed(p, first, before);
    FeedConcat(p, first, before, a);
    FeedConcat(p, first, before + a, after);
    FeedConcat(p, first, before, b);
    FeedConcat(p, first, before + b, after);
    WindowDiffers(p, c, a, b);
    var x, y := Feed(p, Feed(p, c, a), after), Feed(p, Feed(p, c, b), after);
    if x == y {
      FeedInjective(p, Feed(p, c, a), Feed(p, c, b), after);
    }
    assert Complement(Complement(x)) == x && Complement(Complement(y)) == y;
  }

  lemma WindowDiffers(p: Word, c: Word, a: seq<bool>, b: seq<bool>)
    requires p[31] && |a| == |b| <= 32 && a != b
    ensures Feed(p, c, a) != Feed(p, c, b)
  {
    var i :| 0 <= i < |a| && a[i] != b[i];
    assert XorLow(a, b)[i];
    ErrorSurvives(p, XorLow(a, b));
    var x, y := Feed(p, c, a), Feed(p, c, b);
    FeedLinear(p, c, a, c, b);
    assert XorLow(c, c) == Zeros(32) && XorLow(x, x) == Zeros(32);
  }

  lemma {:induction false} MessageBitsInjective(a: seq<Byte>, b: seq<Byte>)
    requires |a| == |b| && MessageBits(a) == MessageBits(b)
    ensures a == b
  {
    if a != [] {
      assert a[0] == MessageBits(a)[..8] && b[0] == MessageBits(b)[..8];
      assert MessageBits(a[1..]) == MessageBits(a)[8..] && MessageBits(b[1..]) == MessageBits(b)[8..];
      MessageBitsInjective(a[1..], b[1..]);
    }
  }

  /** Messages that differ only inside a window of at most four bytes have different checksums. */
  lemma {:induction false} WindowDetected(p: Word, start: Word, before: seq<Byte>, a: seq<Byte>, b: seq<Byte>,
      after: seq<Byte>)
    requires p[31] && |a| == |b| <= 4 && a != b
    ensures BitwiseCrc(p, start, MessageBits(before + a + after))
            != BitwiseCrc(p, start, MessageBits(before + b + after))
  {
    MessageBitsConcat(before, a);
    MessageBitsConcat(before + a, after);
    MessageBitsConcat(before, b);
    MessageBitsConcat(before + b, after);
    if MessageBits(a) == MessageBits(b) {
      MessageBitsInjective(a, b);
    }
    BurstDetected(p, start, MessageBits(before), MessageBits(a), MessageBits(b), MessageBits(after));
  }
}
