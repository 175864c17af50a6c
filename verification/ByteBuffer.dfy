/** ByteBufferWriter and ByteBufferReader: typed values on the wire. */
module ByteBuffers {
  import opened Buffers
  import opened Wrappers

  datatype Host = LittleEndian | BigEndian

  const WORD := 0x1_0000_0000_0000_0000

  /** x shifted left by n bits. */
  function Shift(x: nat, n: nat): nat {
    if n == 0 then x else 2 * Shift(x, n - 1)
  }

  function Reversed<T>(s: seq<T>): (r: seq<T>)
    ensures |r| == |s|
    ensures forall i :: 0 <= i < |s| ==> r[i] == s[|s| - 1 - i]
  {
    seq(|s|, i requires 0 <= i < |s| => s[|s| - 1 - i])
  }

  /** The n low bytes of v, most significant first. */
  function Digits(v: nat, n: nat): (s: seq<Byte>)
    ensures |s| == n
  {
    if n == 0 then [] else Digits(v / 256, n - 1) + [(v % 256) as Byte]
  }

  function Number(s: seq<Byte>): nat {
    if s == [] then 0 else Number(s[..|s| - 1]) * 256 + s[|s| - 1] as nat
  }

  /** v without all but its n low bytes. */
  function Low(v: nat, n: nat): nat {
    if n == 0 then 0 else v % 256 + 256 * Low(v / 256, n - 1)
  }

  lemma {:induction false} NumberOfDigits(v: nat, n: nat)
    ensures Number(Digits(v, n)) == Low(v, n)
  {
    if n > 0 {
      NumberOfDigits(v / 256, n - 1);
      assert Digits(v, n)[..n - 1] == Digits(v / 256, n - 1);
    }
  }

  /** Exactly the values that fit n bytes survive in n bytes. */
  lemma {:induction false} LowIsAll(v: nat, n: nat)
    ensures Low(v, n) < Shift(1, 8 * n)
    ensures Low(v, n) == v <==> v < Shift(1, 8 * n)
  {
    if n > 0 {
      LowIsAll(v / 256, n - 1);
      ShiftByte(1, 8 * (n - 1));
    }
  }

  lemma {:induction false} DigitsOfNumber(s: seq<Byte>)
    ensures Digits(Number(s), |s|) == s
  {
    if s != [] {
      DigitsOfNumber(s[..|s| - 1]);
      assert s == s[..|s| - 1] + [s[|s| - 1]];
      DivMod(Number(s[..|s| - 1]), s[|s| - 1]);
    }
  }

  lemma DivMod(v: nat, b: Byte)
    ensures (v * 256 + b as nat) / 256 == v && (v * 256 + b as nat) % 256 == b as nat
  {
  }

  /** How the host stores an n-byte word, and how it reads one. */
  function Stored(host: Host, v: nat, n: nat): (s: seq<Byte>)
    ensures |s| == n
  {
    if host == BigEndian then Digits(v, n) else Reversed(Digits(v, n))
  }

  function Loaded(host: Host, s: seq<Byte>): nat {
    Number(if host == BigEndian then s else Reversed(s))
  }

  /** HostToNetwork and NetworkToHost: the same byte swap, or nothing on a big-endian host. */
  function Swapped(host: Host, v: nat, n: nat): nat {
    if host == BigEndian then v else Number(Reversed(Digits(v, n)))
  }

  /** Swapping and then storing gives network order on either host. */
  lemma {:induction false} StoredIsNetworkOrder(host: Host, v: nat, n: nat)
    ensures Stored(host, Swapped(host, v, n), n) == Digits(v, n)
  {
    DigitsOfNumber(Reversed(Digits(v, n)));
    assert Reversed(Reversed(Digits(v, n))) == Digits(v, n);
  }

  lemma {:induction false} LoadedIsNumber(host: Host, s: seq<Byte>)
    ensures Swapped(host, Loaded(host, s), |s|) == Number(s)
  {
    if host == LittleEndian {
      DigitsOfNumber(Reversed(s));
      assert Reversed(Reversed(s)) == s;
    }
  }

  /** Bitwise or. */
  function Or(a: nat, b: nat): nat {
    if a == 0 then b else if b == 0 then a
    else 2 * Or(a / 2, b / 2) + if a % 2 == 1 || b % 2 == 1 then 1 else 0
  }

  lemma ShiftSeven(x: nat, n: nat)
    ensures Shift(x, n + 7) == 128 * Shift(x, n)
  {
    assert Shift(x, n + 7) == 2 * Shift(x, n + 6) && Shift(x, n + 6) == 2 * Shift(x, n + 5);
    assert Shift(x, n + 5) == 2 * Shift(x, n + 4);
    assert Shift(x, n + 4) == 2 * Shift(x, n + 3) && Shift(x, n + 3) == 2 * Shift(x, n + 2);
    assert Shift(x, n + 2) == 2 * Shift(x, n + 1);
  }

  lemma ShiftByte(x: nat, n: nat)
    ensures Shift(x, n + 8) == 256 * Shift(x, n)
  {
    ShiftSeven(x, n);
    assert Shift(x, n + 8) == 2 * Shift(x, n + 7);
  }

  /** Shifts by whole bytes. The amounts are variables lest the verifier unfold them bit by bit. */
  lemma ShiftBytes(x: nat, one: nat, two: nat, three: nat, four: nat)
    requires one == 8 && two == 16 && three == 24 && four == 32
    ensures Shift(x, one) == 0x100 * x && Shift(x, two) == 0x1_0000 * x
    ensures Shift(x, three) == 0x100_0000 * x && Shift(x, four) == 0x1_0000_0000 * x
  {
    ShiftByte(x, 0);
    ShiftByte(x, one);
    ShiftByte(x, two);
    ShiftByte(x, three);
  }

  lemma ShiftWord(x: nat, n: nat)
    requires n == 64
    ensures Shift(x, n) == WORD * x
  {
    ShiftBytes(x, n - 56, n - 48, n - 40, n - 32);
    ShiftByte(x, n - 32);
    ShiftByte(x, n - 24);
    ShiftByte(x, n - 16);
    ShiftByte(x, n - 8);
  }

  lemma {:induction false} ShiftMonotone(x: nat, y: nat, m: nat, n: nat)
    requires x <= y && m <= n
    ensures Shift(x, m) <= Shift(y, n)
    decreases n
  {
    if m < n {
      ShiftMonotone(x, y, m, n - 1);
    } else if n > 0 {
      ShiftMonotone(x, y, m - 1, n - 1);
    }
  }

  /** Bits that do not overlap are simply added. */
  lemma {:induction false} OrIsSum(a: nat, b: nat, n: nat)
    requires a < Shift(1, n)
    ensures Or(a, Shift(b, n)) == a + Shift(b, n)
  {
    if n > 0 && a > 0 {
      OrIsSum(a / 2, b, n - 1);
    }
  }

  /** Setting a bit above all the others but that one. */
  lemma {:induction false} OrSetsBit(a: nat, n: nat)
    requires a < Shift(1, n + 1)
    ensures Or(a, Shift(1, n)) == if a < Shift(1, n) then a + Shift(1, n) else a
  {
    if n > 0 && a > 0 {
      OrSetsBit(a / 2, n - 1);
      ShiftMonotone(1, 1, 0, n);
    }
  }

  lemma TopBit(a: nat)
    requires a < 256
    ensures Or(a, 128) == a % 128 + 128
  {
    var n := 7;
    ShiftSeven(1, n - 7);
    OrSetsBit(a, n);
  }

  lemma {:induction false} ContinuationBit(v: nat)
    ensures Or(v % 256, 128) == v % 128 + 128
  {
    LowBits(v);
    TopBit(v % 256);
  }

  /** The char cast keeps the low eight bits, and the top one is set. */
  method ContinuationByte(v: nat) returns (b: Byte)
    ensures b as nat == v % 128 + 128
  {
    ContinuationBit(v);
    b := Or(v % 256, 0x80) as Byte;
  }

  lemma LowBits(v: nat)
    ensures v % 256 % 128 == v % 128
  {
    assert v == 128 * (2 * (v / 256)) + v % 256;
  }

  // ---- Values and their wire form ----

  datatype Kind = KU8 | KU16 | KU24 | KU32 | KU64 | KVarint | KBytes(length: nat)

  datatype Value = Fixed(kind: Kind, number: nat) | Varint(number: nat) | Bytes(bytes: seq<Byte>)

  function Width(kind: Kind): nat {
    match kind
    case KU8 => 1
    case KU16 => 2
    case KU24 => 3
    case KU32 => 4
    case _ => 8
  }

  function KindOf(value: Value): Kind {
    match value
    case Fixed(kind, _) => kind
    case Varint(_) => KVarint
    case Bytes(b) => KBytes(|b|)
  }

  /** One more than what the C++ parameter type admits: a 24-bit value arrives in a 32-bit word. */
  function Limit(kind: Kind): nat {
    match kind
    case KU8 => 0x100
    case KU16 => 0x1_0000
    case KU24 => 0x1_0000_0000
    case KU32 => 0x1_0000_0000
    case _ => WORD
  }

  predicate Typed(value: Value) {
    match value
    case Fixed(kind, v) => !kind.KVarint? && !kind.KBytes? && v < Limit(kind)
    case Varint(v) => v < WORD
    case Bytes(_) => true
  }

  lemma LimitIsShift(kind: Kind)
    ensures Shift(1, 8 * Width(kind)) == if kind == KU24 then 0x100_0000 else Limit(kind)
  {
    var n := 8 * Width(kind);
    ShiftBytes(1, 8, 16, 24, 32);
    if n == 64 { ShiftWord(1, n); }
  }

  predicate InRange(value: Value) {
    Typed(value) && (value.Fixed? && value.kind == KU24 ==> value.number < 0x100_0000)
  }

  /** The value as it arrives. */
  function Received(value: Value): Value {
    match value
    case Fixed(kind, v) => Fixed(kind, Low(v, Width(kind)))
    case _ => value
  }

  /** Base-128 groups, least significant first, every byte but the last with its top bit set. */
  function VarintBytes(v: nat): (s: seq<Byte>)
    ensures |s| > 0
  {
    if v < 128 then [v as Byte] else [(v % 128 + 128) as Byte] + VarintBytes(v / 128)
  }

  /** One round of the writing loop. */
  lemma VarintStep(written: seq<Byte>, v: nat)
    requires v >= 128
    ensures written + VarintBytes(v) == written + [(v % 128 + 128) as Byte] + VarintBytes(v / 128)
  {
    Prepend(written, [(v % 128 + 128) as Byte], VarintBytes(v / 128));
  }

  function Wire(value: Value): seq<Byte> {
    match value
    case Fixed(kind, v) => Digits(v, Width(kind))
    case Varint(v) => VarintBytes(v)
    case Bytes(b) => b
  }

  /** Numbers go out with the most significant byte first. */
  lemma NetworkOrder16(a: Byte, b: Byte)
    ensures Wire(Fixed(KU16, 0x100 * a as nat + b as nat)) == [a, b]
  {
    NumberOf16(a, b);
    WireIs([a, b], Number([a, b]), KU16);
  }

  lemma NetworkOrder24(a: Byte, b: Byte, c: Byte)
    ensures Wire(Fixed(KU24, 0x1_0000 * a as nat + 0x100 * b as nat + c as nat)) == [a, b, c]
  {
    NumberOf24(a, b, c);
    WireIs([a, b, c], Number([a, b, c]), KU24);
  }

  lemma NetworkOrder32(a: Byte, b: Byte, c: Byte, d: Byte)
    ensures Wire(Fixed(KU32, 0x100_0000 * a as nat + 0x1_0000 * b as nat + 0x100 * c as nat + d as nat)) == [a, b, c, d]
  {
    NumberOf24(a, b, c);
    NumberSnoc([a, b, c], d, [a, b, c, d]);
    WireIs([a, b, c, d], Number([a, b, c, d]), KU32);
  }

  lemma NumberOf16(a: Byte, b: Byte)
    ensures Number([a, b]) == 0x100 * a as nat + b as nat
  {
    NumberSnoc([], a, [a]);
    NumberSnoc([a], b, [a, b]);
  }

  lemma NumberOf24(a: Byte, b: Byte, c: Byte)
    ensures Number([a, b, c]) == 0x1_0000 * a as nat + 0x100 * b as nat + c as nat
  {
    NumberOf16(a, b);
    NumberSnoc([a, b], c, [a, b, c]);
  }

  lemma NumberSnoc(s: seq<Byte>, b: Byte, all: seq<Byte>)
    requires all == s + [b]
    ensures Number(all) == Number(s) * 256 + b as nat
  {
    assert all[..|s|] == s;
  }

  lemma WireIs(s: seq<Byte>, v: nat, kind: Kind)
    requires Number(s) == v && !kind.KVarint? && !kind.KBytes? && |s| == Width(kind)
    ensures Wire(Fixed(kind, v)) == s
  {
    DigitsOfNumber(s);
  }

  /** A varint's least significant group goes out first, marked unless it is the last. */
  lemma VarintOrder(low: nat, high: nat)
    requires low < 128 && 0 < high < 128
    ensures Wire(Varint(low)) == [low as Byte]
    ensures Wire(Varint(128 * high + low)) == [(0x80 + low) as Byte, high as Byte]
  {
    var v := 128 * high + low;
    assert v / 128 == high && v % 128 == low;
    assert VarintBytes(high) == [high as Byte];
  }

  function Stream(values: seq<Value>): seq<Byte> {
    if values == [] then [] else Wire(values[0]) + Stream(values[1..])
  }

  function Groups(s: seq<Byte>): nat {
    if s == [] then 0 else s[0] as nat % 128 + 128 * Groups(s[1..])
  }

  /** The bytes up to and including the first one with a clear top bit: all of them if there is none. */
  function GroupCount(s: seq<Byte>): (n: nat)
    ensures n <= |s|
    ensures forall i :: 0 <= i < n - 1 ==> s[i] >= 128
    ensures n < |s| ==> n > 0 && s[n - 1] < 128
  {
    if s == [] then 0 else if s[0] < 128 then 1 else 1 + GroupCount(s[1..])
  }

  predicate VarintAhead(s: seq<Byte>) {
    var n := GroupCount(s);
    0 < n <= 10 && s[n - 1] < 128
  }

  datatype Parsed = Parsed(value: Value, rest: seq<Byte>)

  function Parse(kind: Kind, s: seq<Byte>): Option<Parsed> {
    match kind
    case KBytes(n) =>
      if n <= |s| then Some(Parsed(Bytes(s[..n]), s[n..])) else None
    case KVarint =>
      var n := GroupCount(s);
      if VarintAhead(s) then Some(Parsed(Varint(Groups(s[..n]) % WORD), s[n..])) else None
    case _ =>
      var n := Width(kind);
      if n <= |s| then Some(Parsed(Fixed(kind, Number(s[..n])), s[n..])) else None
  }

  datatype AllParsed = AllParsed(values: seq<Value>, rest: seq<Byte>)

  function ParseAll(kinds: seq<Kind>, s: seq<Byte>): Option<AllParsed> {
    if kinds == [] then Some(AllParsed([], s))
    else
      match Parse(kinds[0], s)
      case None => None
      case Some(first) =>
        match ParseAll(kinds[1..], first.rest)
        case None => None
        case Some(others) => Some(AllParsed([first.value] + others.values, others.rest))
  }

  function Kinds(values: seq<Value>): seq<Kind> {
    seq(|values|, i requires 0 <= i < |values| => KindOf(values[i]))
  }

  // ---- Varints ----

  lemma {:induction false} GroupsOfVarint(v: nat)
    ensures Groups(VarintBytes(v)) == v
  {
    if v >= 128 {
      GroupsOfVarint(v / 128);
      assert VarintBytes(v)[1..] == VarintBytes(v / 128);
    }
  }

  lemma {:induction false} VarintIsTerminated(v: nat, rest: seq<Byte>)
    ensures GroupCount(VarintBytes(v) + rest) == |VarintBytes(v)|
    ensures VarintBytes(v)[|VarintBytes(v)| - 1] < 128
    ensures forall i :: 0 <= i < |VarintBytes(v)| - 1 ==> VarintBytes(v)[i] >= 128
  {
    if v >= 128 {
      VarintIsTerminated(v / 128, rest);
      assert (VarintBytes(v) + rest)[1..] == VarintBytes(v / 128) + rest;
    }
  }

  /** The number of groups is the least that can hold the value. */
  lemma {:induction false} VarintLength(v: nat)
    ensures v < Shift(1, 7 * |VarintBytes(v)|)
    ensures |VarintBytes(v)| > 1 ==> v >= Shift(1, 7 * (|VarintBytes(v)| - 1))
  {
    var n := |VarintBytes(v)|;
    ShiftSeven(1, 0);
    if v >= 128 {
      VarintLength(v / 128);
      ShiftSeven(1, 7 * (n - 1));
      if n > 2 { ShiftSeven(1, 7 * (n - 2)); }
    }
  }

  /** Ten groups are enough for any 64-bit value. */
  lemma VarintAtMostTen(v: nat)
    requires v < WORD
    ensures |VarintBytes(v)| <= 10
  {
    VarintLength(v);
    var bits := 64;
    ShiftWord(1, bits);
    if |VarintBytes(v)| > 10 {
      ShiftMonotone(1, 1, bits, 7 * (|VarintBytes(v)| - 1));
    }
  }

  lemma {:induction false} GroupsBound(s: seq<Byte>)
    ensures Groups(s) < Shift(1, 7 * |s|)
  {
    if s != [] {
      GroupsBound(s[1..]);
      ShiftSeven(1, 7 * (|s| - 1));
    }
  }

  lemma {:induction false} GroupsAppend(s: seq<Byte>, b: Byte)
    ensures Groups(s + [b]) == Groups(s) + Shift(b as nat % 128, 7 * |s|)
  {
    if s == [] {
      assert (s + [b])[1..] == [];
    } else {
      GroupsAppend(s[1..], b);
      assert (s + [b])[1..] == s[1..] + [b];
      ShiftSeven(b as nat % 128, 7 * (|s| - 1));
    }
  }

  /** No accepted encoding of a value is shorter than the one written. */
  lemma VarintIsMinimal(s: seq<Byte>)
    requires VarintAhead(s)
    ensures |VarintBytes(Groups(s[..GroupCount(s)]) % WORD)| <= GroupCount(s)
  {
    var n := GroupCount(s);
    var v := Groups(s[..n]) % WORD;
    GroupsBound(s[..n]);
    assert v < Shift(1, 7 * n);
    VarintLength(v);
    if |VarintBytes(v)| > n {
      ShiftMonotone(1, 1, 7 * n, 7 * (|VarintBytes(v)| - 1));
    }
  }

  // ---- Round trips ----

  /** A value read back is itself, except that only 24 bits of a 24-bit value travel. */
  lemma ValueRoundTrip(value: Value, rest: seq<Byte>)
    requires Typed(value)
    ensures Parse(KindOf(value), Wire(value) + rest) == Some(Parsed(Received(value), rest))
    ensures Received(value) == value <==> InRange(value)
  {
    match value
    case Bytes(b) =>
      assert (b + rest)[..|b|] == b && (b + rest)[|b|..] == rest;
    case Varint(v) =>
      VarintRoundTrip(v, rest);
    case Fixed(kind, v) =>
      FixedRoundTrip(kind, v, rest);
  }

  lemma VarintRoundTrip(v: nat, rest: seq<Byte>)
    requires v < WORD
    ensures Parse(KVarint, VarintBytes(v) + rest) == Some(Parsed(Varint(v), rest))
  {
    VarintIsTerminated(v, rest);
    GroupsOfVarint(v);
    VarintAtMostTen(v);
    ParseGroups(VarintBytes(v), rest);
  }

  lemma ParseGroups(w: seq<Byte>, rest: seq<Byte>)
    requires 0 < |w| <= 10 && w[|w| - 1] < 128 && GroupCount(w + rest) == |w| && Groups(w) < WORD
    ensures Parse(KVarint, w + rest) == Some(Parsed(Varint(Groups(w)), rest))
  {
    assert (w + rest)[..|w|] == w && (w + rest)[|w|..] == rest;
  }

  lemma FixedRoundTrip(kind: Kind, v: nat, rest: seq<Byte>)
    requires Typed(Fixed(kind, v))
    ensures Parse(kind, Digits(v, Width(kind)) + rest) == Some(Parsed(Fixed(kind, Low(v, Width(kind))), rest))
    ensures Low(v, Width(kind)) == v <==> (kind == KU24 ==> v < 0x100_0000)
  {
    var w := Digits(v, Width(kind));
    assert (w + rest)[..|w|] == w && (w + rest)[|w|..] == rest;
    NumberOfDigits(v, Width(kind));
    LowIsAll(v, Width(kind));
    LimitIsShift(kind);
  }

  function Arrived(values: seq<Value>): seq<Value> {
    seq(|values|, i requires 0 <= i < |values| => Received(values[i]))
  }

  /** A sequence of values is read back whatever follows it, which is left untouched. */
  lemma {:induction false} StreamRoundTrip(values: seq<Value>, rest: seq<Byte>)
    requires forall i :: 0 <= i < |values| ==> Typed(values[i])
    ensures ParseAll(Kinds(values), Stream(values) + rest) == Some(AllParsed(Arrived(values), rest))
  {
    if values == [] {
      assert Stream(values) + rest == rest;
    } else {
      var tail := Stream(values[1..]) + rest;
      assert Stream(values) + rest == Wire(values[0]) + tail;
      ValueRoundTrip(values[0], tail);
      StreamRoundTrip(values[1..], rest);
      KindsTail(values);
      assert Arrived(values) == [Received(values[0])] + Arrived(values[1..]);
    }
  }

  /** It arrives unchanged exactly when every 24-bit value fits in 24 bits. */
  lemma ArrivedIsSent(values: seq<Value>)
    requires forall i :: 0 <= i < |values| ==> Typed(values[i])
    ensures Arrived(values) == values <==> forall i :: 0 <= i < |values| ==> InRange(values[i])
  {
    forall i | 0 <= i < |values| ensures Received(values[i]) == values[i] <==> InRange(values[i]) {
      ValueRoundTrip(values[i], []);
    }
    if Arrived(values) == values {
      forall i | 0 <= i < |values| ensures InRange(values[i]) {
        assert Arrived(values)[i] == Received(values[i]);
      }
    }
  }

  lemma {:induction false} CutVarint(v: nat, n: nat)
    requires n < |VarintBytes(v)|
    ensures !VarintAhead(VarintBytes(v)[..n])
  {
    var s := VarintBytes(v)[..n];
    VarintIsTerminated(v, []);
    var k := GroupCount(s);
    assert k > 0 ==> s[k - 1] == VarintBytes(v)[k - 1];
  }

  /** A stream cut short anywhere is refused: no proper prefix reads as the whole. */
  lemma {:induction false} CutStreamFails(values: seq<Value>, n: nat)
    requires forall i :: 0 <= i < |values| ==> Typed(values[i])
    requires n < |Stream(values)|
    ensures ParseAll(Kinds(values), Stream(values)[..n]) == None
  {
    var w := |Wire(values[0])|;
    if n < w {
      CutFirst(values, n);
    } else {
      CutStreamFails(values[1..], n - w);
      CutLater(values, n);
    }
  }

  lemma CutFirst(values: seq<Value>, n: nat)
    requires values != [] && Typed(values[0]) && n < |Wire(values[0])|
    ensures ParseAll(Kinds(values), Stream(values)[..n]) == None
  {
    assert Stream(values)[..n] == Wire(values[0])[..n];
    CutValueFails(values[0], n);
  }

  lemma {:induction false} CutLater(values: seq<Value>, n: nat)
    requires values != [] && Typed(values[0]) && |Wire(values[0])| <= n <= |Stream(values)|
    requires ParseAll(Kinds(values[1..]), Stream(values[1..])[..n - |Wire(values[0])|]) == None
    ensures ParseAll(Kinds(values), Stream(values)[..n]) == None
  {
    var tail := Stream(values[1..])[..n - |Wire(values[0])|];
    CutTail(values, n);
    KindsTail(values);
    ValueRoundTrip(values[0], tail);
  }

  lemma CutTail(values: seq<Value>, n: nat)
    requires values != [] && |Wire(values[0])| <= n <= |Stream(values)|
    ensures Stream(values)[..n] == Wire(values[0]) + Stream(values[1..])[..n - |Wire(values[0])|]
  {
  }

  lemma KindsTail(values: seq<Value>)
    requires values != []
    ensures Kinds(values)[0] == KindOf(values[0]) && Kinds(values)[1..] == Kinds(values[1..])
  {
  }

  lemma CutValueFails(value: Value, n: nat)
    requires Typed(value) && n < |Wire(value)|
    ensures Parse(KindOf(value), Wire(value)[..n]) == None
  {
    if value.Varint? { CutVarint(value.number, n); }
  }

  lemma {:induction false} StreamAppend(values: seq<Value>, value: Value)
    ensures Stream(values + [value]) == Stream(values) + Wire(value)
  {
    if values == [] {
      assert Stream([value]) == Wire(value) + Stream([]);
    } else {
      StreamAppend(values[1..], value);
      assert (values + [value])[1..] == values[1..] + [value];
    }
  }

  class ByteBufferWriter {
    const host: Host
    const buffer: BufferT<Byte>

    constructor (host: Host, bytes: seq<Byte>)
      ensures Valid() && Data() == bytes && this.host == host
      ensures fresh(buffer) && (buffer.data != null ==> fresh(buffer.data))
    {
      this.host := host;
      buffer := new BufferT(0, 0);
      new;
      if bytes != [] {
        buffer.AppendData(bytes);
      } else {
        buffer.EnsureCapacity(4096);
      }
    }

    ghost predicate Valid()
      reads buffer
    {
      buffer.IsConsistent()
    }

    function Data(): seq<Byte>
      requires Valid()
      reads buffer, buffer.data
    {
      buffer.Contents()
    }

    method WriteBytes(bytes: seq<Byte>)
      requires Valid()
      modifies buffer, buffer.data
      ensures Valid() && Data() == old(Data()) + bytes
      ensures buffer.data == old(buffer.data) || fresh(buffer.data)
    {
      buffer.AppendData(bytes);
    }

    method WriteUInt8(v: nat)
      requires Valid() && v < 0x100
      modifies buffer, buffer.data
      ensures Valid() && Data() == old(Data()) + Wire(Fixed(KU8, v))
      ensures buffer.data == old(buffer.data) || fresh(buffer.data)
    {
      assert Digits(v, 1) == Digits(v / 256, 0) + [v as Byte];
      WriteBytes([v as Byte]);
    }

    /** The 16, 32 and 64-bit writes: the word in network order, as the host stores it. */
    method WriteWord(kind: Kind, v: nat)
      requires Valid() && kind in {KU16, KU32, KU64} && Typed(Fixed(kind, v))
      modifies buffer, buffer.data
      ensures Valid() && Data() == old(Data()) + Wire(Fixed(kind, v))
      ensures buffer.data == old(buffer.data) || fresh(buffer.data)
    {
      var n := Width(kind);
      StoredIsNetworkOrder(host, v, n);
      WriteBytes(Stored(host, Swapped(host, v, n), n));
    }

    /** The stored 32-bit word without its first byte. */
    method WriteUInt24(v: nat)
      requires Valid() && Typed(Fixed(KU24, v))
      modifies buffer, buffer.data
      ensures Valid() && Data() == old(Data()) + Wire(Fixed(KU24, v))
      ensures buffer.data == old(buffer.data) || fresh(buffer.data)
    {
      var word := Stored(host, Swapped(host, v, 4), 4);
      StoredIsNetworkOrder(host, v, 4);
      DropTop(v, 3);
      WriteBytes(word[1..]);
    }

    method WriteUVarint(v: nat)
      requires Valid() && v < WORD
      modifies buffer, buffer.data
      ensures Valid() && Data() == old(Data()) + Wire(Varint(v))
      ensures buffer.data == old(buffer.data) || fresh(buffer.data)
    {
      var val := v;
      ghost var written: seq<Byte> := [];
      while val >= 0x80
        invariant Valid() && (buffer.data == old(buffer.data) || fresh(buffer.data))
        invariant Data() == old(Data()) + written && VarintBytes(v) == written + VarintBytes(val)
        decreases val
      {
        VarintStep(written, val);
        var byte := ContinuationByte(val);
        Prepend(old(Data()), written, [byte]);
        written := written + [byte];
        WriteBytes([byte]);
        val := val / 128;
      }
      WriteBytes([val as Byte]);
    }

    method WriteString(s: seq<Byte>)
      requires Valid()
      modifies buffer, buffer.data
      ensures Valid() && Data() == old(Data()) + Wire(Bytes(s))
      ensures buffer.data == old(buffer.data) || fresh(buffer.data)
    {
      WriteBytes(s);
    }

    method Write(value: Value)
      requires Valid() && Typed(value)
      modifies buffer, buffer.data
      ensures Valid() && Data() == old(Data()) + Wire(value)
      ensures buffer.data == old(buffer.data) || fresh(buffer.data)
    {
      match value
      case Bytes(b) => WriteString(b);
      case Varint(v) => WriteUVarint(v);
      case Fixed(kind, v) =>
        if kind == KU8 {
          WriteUInt8(v);
        } else if kind == KU24 {
          WriteUInt24(v);
        } else {
          WriteWord(kind, v);
        }
    }
  }

  lemma Prepend(a: seq<Byte>, b: seq<Byte>, c: seq<Byte>)
    ensures a + (b + c) == a + b + c
  {
  }

  /** The last n of n + 1 digits. */
  lemma {:induction false} DropTop(v: nat, n: nat)
    ensures Digits(v, n + 1)[1..] == Digits(v, n)
  {
    if n > 0 {
      DropTop(v / 256, n - 1);
      assert Digits(v, n + 1)[1..] == Digits(v / 256, n)[1..] + [(v % 256) as Byte];
    }
  }

  class ByteBufferReader {
    const host: Host
    const bytes: seq<Byte>
    var start: nat

    constructor (host: Host, bytes: seq<Byte>)
      ensures Valid() && Ahead() == bytes && this.bytes == bytes && this.host == host
    {
      this.host, this.bytes, start := host, bytes, 0;
    }

    ghost predicate Valid()
      reads this
    {
      start <= |bytes|
    }

    /** The unread bytes. */
    function Ahead(): seq<Byte>
      requires Valid()
      reads this
    {
      bytes[start..]
    }

    method ReadBytes(n: nat) returns (r: Option<seq<Byte>>)
      requires Valid()
      modifies this`start
      ensures Valid()
      ensures n <= |old(Ahead())| ==> r == Some(old(Ahead())[..n]) && Ahead() == old(Ahead())[n..]
      ensures n > |old(Ahead())| ==> r == None && start == old(start)
    {
      if n > |bytes| - start {
        return None;
      }
      r := Some(bytes[start..start + n]);
      assert Ahead()[..n] == r.value && Ahead()[n..] == bytes[start + n..];
      start := start + n;
    }

    method Consume(n: nat) returns (ok: bool)
      requires Valid()
      modifies this`start
      ensures Valid() && ok == (n <= |old(Ahead())|)
      ensures Ahead() == if ok then old(Ahead())[n..] else old(Ahead())
    {
      if n > |bytes| - start {
        return false;
      }
      start := start + n;
      ok := true;
    }

    /** The 8, 16, 32 and 64-bit reads. */
    method ReadWord(kind: Kind) returns (r: Option<nat>)
      requires Valid() && kind in {KU8, KU16, KU32, KU64}
      modifies this`start
      ensures Valid() && Reads(kind, old(Ahead()), Fixed(kind, if r.Some? then r.value else 0), r.Some?)
      ensures r == None ==> start == old(start)
    {
      var raw := ReadBytes(Width(kind));
      if raw == None {
        return None;
      }
      LoadedIsNumber(host, raw.value);
      r := Some(Swapped(host, Loaded(host, raw.value), |raw.value|));
    }

    /** The three bytes land behind a zero byte of a 32-bit word. */
    method ReadUInt24() returns (r: Option<nat>)
      requires Valid()
      modifies this`start
      ensures Valid() && Reads(KU24, old(Ahead()), Fixed(KU24, if r.Some? then r.value else 0), r.Some?)
      ensures r == None ==> start == old(start)
    {
      var raw := ReadBytes(3);
      if raw == None {
        return None;
      }
      LoadedIsNumber(host, [0] + raw.value);
      LeadingZero(raw.value);
      r := Some(Swapped(host, Loaded(host, [0] + raw.value), 4));
    }

    /** What a read of the kind did: whether it succeeded, what it gave, what is left. */
    ghost predicate Reads(kind: Kind, before: seq<Byte>, value: Value, ok: bool)
      requires Valid()
      reads this
    {
      && (ok <==> Parse(kind, before).Some?)
      && (ok ==> Parse(kind, before) == Some(Parsed(value, Ahead())))
    }

    method Read(kind: Kind) returns (r: Option<Value>)
      requires Valid()
      modifies this`start
      ensures Valid() && Reads(kind, old(Ahead()), if r.Some? then r.value else Bytes([]), r.Some?)
    {
      var n: Option<nat>;
      match kind
      case KBytes(length) =>
        var bytes := ReadBytes(length);
        return if bytes == None then None else Some(Bytes(bytes.value));
      case KVarint =>
        n := ReadUVarint();
        return if n == None then None else Some(Varint(n.value));
      case KU24 =>
        n := ReadUInt24();
        return if n == None then None else Some(Fixed(kind, n.value));
      case _ =>
        n := ReadWord(kind);
        return if n == None then None else Some(Fixed(kind, n.value));
    }

    /** On failure the bytes looked at are gone: all that was left, or ten. */
    method ReadUVarint() returns (r: Option<nat>)
      requires Valid()
      modifies this`start
      ensures Valid() && Reads(KVarint, old(Ahead()), Varint(if r.Some? then r.value else 0), r.Some?)
      ensures r == None ==> start == if |old(Ahead())| < 10 then |bytes| else old(start) + 10
    {
      var v, i := 0, 0;
      ghost var before, k := Ahead(), 0;
      while i < 64
        invariant Valid() && i == 7 * k && k <= 10 && start == old(start) + k
        invariant k <= |before| && AllContinue(before[..k])
        invariant k < 10 ==> v == Groups(before[..k])
        decreases 70 - i
      {
        Terminator(before, k);
        var byte := ReadBytes(1);
        if byte == None {
          return None;
        }
        var b := byte.value[0];
        GroupRead(before, k, b, i);
        v := Or(v, Shift(b as nat % 128, i) % WORD);
        if b < 128 {
          assert Ahead() == before[k + 1..];
          return Some(v);
        }
        i, k := i + 7, k + 1;
      }
      Terminator(before, k);
      r := None;
    }
  }

  method WriteAll(host: Host, values: seq<Value>) returns (bytes: seq<Byte>)
    requires forall i :: 0 <= i < |values| ==> Typed(values[i])
    ensures bytes == Stream(values)
  {
    var writer := new ByteBufferWriter(host, []);
    for i := 0 to |values|
      invariant writer.Valid() && fresh(writer.buffer) && (writer.buffer.data != null ==> fresh(writer.buffer.data))
      invariant writer.Data() == Stream(values[..i])
    {
      StreamAppend(values[..i], values[i]);
      assert values[..i + 1] == values[..i] + [values[i]];
      writer.Write(values[i]);
    }
    assert values[..|values|] == values;
    bytes := writer.Data();
  }

  method ReadAll(reader: ByteBufferReader, kinds: seq<Kind>) returns (r: Option<AllParsed>)
    requires reader.Valid()
    modifies reader`start
    ensures reader.Valid() && r == ParseAll(kinds, old(reader.Ahead()))
    ensures r.Some? ==> r.value.rest == reader.Ahead()
    decreases kinds
  {
    if kinds == [] {
      return Some(AllParsed([], reader.Ahead()));
    }
    var first := reader.Read(kinds[0]);
    if first == None {
      return None;
    }
    r := ReadAll(reader, kinds[1..]);
    if r.Some? {
      r := Some(AllParsed([first.value] + r.value.values, r.value.rest));
    }
  }

  /** Everything written on one host is read back on another, and nothing is left over. */
  method Transfer(sender: Host, receiver: Host, values: seq<Value>) returns (r: Option<AllParsed>)
    requires forall i :: 0 <= i < |values| ==> Typed(values[i])
    ensures r == Some(AllParsed(Arrived(values), []))
    ensures r.value.values == values <==> forall i :: 0 <= i < |values| ==> InRange(values[i])
  {
    var bytes := WriteAll(sender, values);
    StreamRoundTrip(values, []);
    assert bytes + [] == bytes;
    ArrivedIsSent(values);
    var reader := new ByteBufferReader(receiver, bytes);
    r := ReadAll(reader, Kinds(values));
  }

  predicate AllContinue(s: seq<Byte>) {
    forall j :: 0 <= j < |s| ==> s[j] >= 128
  }

  lemma {:induction false} GroupRead(s: seq<Byte>, k: nat, b: Byte, i: nat)
    requires k < |s| && s[k] == b && AllContinue(s[..k]) && i == 7 * k < 64
    ensures Or(Groups(s[..k]), Shift(b as nat % 128, i) % WORD) == Groups(s[..k + 1]) % WORD
    ensures k < 9 ==> Groups(s[..k + 1]) % WORD == Groups(s[..k + 1])
    ensures b >= 128 ==> AllContinue(s[..k + 1])
  {
    var taken, next := s[..k], s[..k + 1];
    assert next == taken + [b];
    Accumulates(taken, b, next, i);
    if b >= 128 { ContinueMore(taken, b, next); }
  }

  lemma ContinueMore(taken: seq<Byte>, b: Byte, next: seq<Byte>)
    requires AllContinue(taken) && b >= 128 && next == taken + [b]
    ensures AllContinue(next)
  {
  }

  /** After k continuation bytes, the next byte decides whether the varint ends there. */
  lemma {:induction false} Terminator(s: seq<Byte>, k: nat)
    requires k <= |s| && AllContinue(s[..k])
    ensures k == |s| ==> !VarintAhead(s)
    ensures k < |s| && s[k] < 128 ==> GroupCount(s) == k + 1
    ensures k >= 10 ==> !VarintAhead(s)
  {
    var n := GroupCount(s);
    assert 0 < n <= k ==> s[..k][n - 1] == s[n - 1];
    if k < |s| && n > k + 1 { assert s[k] >= 128; }
  }

  /** One group is or-ed in; in the tenth, only the lowest bit fits the 64-bit accumulator. */
  lemma {:induction false} Accumulates(taken: seq<Byte>, b: Byte, next: seq<Byte>, i: nat)
    requires i == 7 * |taken| < 64 && next == taken + [b]
    ensures Or(Groups(taken), Shift(b as nat % 128, i) % WORD) == Groups(next) % WORD
    ensures |taken| < 9 ==> Groups(next) % WORD == Groups(next)
  {
    var x, v := b as nat % 128, Groups(taken);
    GroupsAppend(taken, b);
    GroupsBound(taken);
    if i < 63 {
      var bits := 64;
      OrIsSum(v, x, i);
      GroupsBound(next);
      ShiftMonotone(1, 1, 7 * |next|, bits);
      ShiftWord(1, bits);
      Wraps(v + Shift(x, i), 0);
      Wraps(Shift(x, i), 0);
    } else {
      OrWraps(v, x, i);
    }
  }

  lemma Halves(x: nat, i: nat)
    requires i == 63
    ensures 2 * Shift(x, i) == WORD * x
  {
    ShiftWord(x, i + 1);
    assert Shift(x, i + 1) == 2 * Shift(x, i);
  }

  lemma OrWraps(v: nat, x: nat, i: nat)
    requires i == 63 && v < Shift(1, i)
    ensures Or(v, Shift(x, i) % WORD) == (v + Shift(x, i)) % WORD
  {
    Halves(1, i);
    Halves(x, i);
    Halves(x % 2, i);
    OrIsSum(v, x % 2, i);
    assert Shift(x, i) == WORD * (x / 2) + Shift(x % 2, i);
    Wraps(Shift(x % 2, i), x / 2);
    Wraps(v + Shift(x % 2, i), x / 2);
  }

  lemma Wraps(a: nat, k: nat)
    requires a < WORD
    ensures (WORD * k + a) % WORD == a
  {
  }

  lemma {:induction false} LeadingZero(s: seq<Byte>)
    ensures Number([0] + s) == Number(s)
  {
    if s != [] {
      LeadingZero(s[..|s| - 1]);
      assert ([0] + s)[..|s|] == [0] + s[..|s| - 1];
    }
  }
}
