/** IP prefixes: word-wise truncation, the order of addresses, and counting the bits of a mask. */
module IpAddresses {

  /** Bits are listed from the most significant one. */
  type Word = w: seq<bool> | |w| == 32 witness Zeros(32)

  type Quad = q: seq<Word> | |q| == 4 witness [Zeros(32), Zeros(32), Zeros(32), Zeros(32)]

  /** Words in host order: the conversions from and to network order cancel out. */
  datatype Address = Unspec | V4(word: Word) | V6(words: Quad)

  function Zeros(n: nat): (z: seq<bool>)
    ensures |z| == n
    ensures forall i :: 0 <= i < n ==> !z[i]
  {
    seq(n, _ => false)
  }

  function Ones(n: nat): (z: seq<bool>)
    ensures |z| == n
    ensures forall i :: 0 <= i < n ==> z[i]
  {
    seq(n, _ => true)
  }

  // ---- Word operations ----

  function And(a: seq<bool>, b: seq<bool>): (r: seq<bool>)
    requires |a| == |b|
    ensures |r| == |a|
    ensures forall i :: 0 <= i < |a| ==> r[i] == (a[i] && b[i])
  {
    seq(|a|, i requires 0 <= i < |a| => a[i] && b[i])
  }

  function Not(a: seq<bool>): (r: seq<bool>)
    ensures |r| == |a|
    ensures forall i :: 0 <= i < |a| ==> r[i] == !a[i]
  {
    seq(|a|, i requires 0 <= i < |a| => !a[i])
  }

  /** Left shift within the width. */
  function Shl(a: seq<bool>, k: nat): (r: seq<bool>)
    requires k <= |a|
    ensures |r| == |a|
  {
    a[k..] + Zeros(k)
  }

  /** Adds one, dropping the carry out of the top bit. */
  function Inc(a: seq<bool>): (r: seq<bool>)
    ensures |r| == |a|
  {
    if a == [] then []
    else if a[|a| - 1] then Inc(a[..|a| - 1]) + [false]
    else a[..|a| - 1] + [true]
  }

  /** The word written with eight hexadecimal digits. */
  function Hex(digits: seq<nat>): (w: Word)
    requires |digits| == 8 && forall d :: d in digits ==> d < 16
  {
    seq(32, i requires 0 <= i < 32 => DigitBit(digits[i / 4], i % 4))
  }

  predicate DigitBit(d: nat, i: nat) {
    if i == 0 then d / 8 % 2 == 1 else if i == 1 then d / 4 % 2 == 1 else if i == 2 then d / 2 % 2 == 1 else d % 2 == 1
  }

  function Number(bits: seq<bool>): nat {
    if bits == [] then 0 else 2 * Number(bits[..|bits| - 1]) + if bits[|bits| - 1] then 1 else 0
  }

  // ---- Prefixes ----

  function KeepFirst(bits: seq<bool>, n: nat): (r: seq<bool>)
    ensures |r| == |bits|
    ensures forall i :: 0 <= i < |bits| ==> r[i] == (bits[i] && i < n)
  {
    seq(|bits|, i requires 0 <= i < |bits| => bits[i] && i < n)
  }

  /** All the bits of an address, the most significant first. */
  function Bits(ip: Address): (bits: seq<bool>)
    ensures |bits| == Width(ip)
  {
    match ip
    case Unspec => []
    case V4(w) => w
    case V6(q) => Cat(Cat(Cat(q[0], q[1]), q[2]), q[3])
  }

  function Cat(a: seq<bool>, b: seq<bool>): (r: seq<bool>)
    ensures |r| == |a| + |b|
  {
    a + b
  }

  function Width(ip: Address): nat {
    match ip
    case Unspec => 0
    case V4(_) => 32
    case V6(_) => 128
  }

  predicate SameFamily(a: Address, b: Address) {
    Width(a) == Width(b)
  }

  lemma BitsAreTheAddress(a: Address, b: Address)
    requires SameFamily(a, b)
    ensures a == b <==> Bits(a) == Bits(b)
  {
    if a.V6? && Bits(a) == Bits(b) {
      QuadParts(a.words);
      QuadParts(b.words);
      assert a.words == b.words;
    }
  }

  lemma QuadParts(q: Quad)
    ensures Bits(V6(q))[..32] == q[0] && Bits(V6(q))[32..64] == q[1]
    ensures Bits(V6(q))[64..96] == q[2] && Bits(V6(q))[96..] == q[3]
  {
  }

  /** The address whose bits these are. */
  function Truncated(ip: Address, n: nat): (r: Address)
    ensures SameFamily(r, ip)
  {
    match ip
    case Unspec => Unspec
    case V4(w) => V4(KeepFirst(w, n))
    case V6(q) => V6(seq(4, i requires 0 <= i < 4 => KeepFirst(q[i], Rest(n, i))))
  }

  lemma TruncatedBits(ip: Address, n: nat)
    ensures Bits(Truncated(ip, n)) == KeepFirst(Bits(ip), n)
  {
    if ip.V6? {
      var q := ip.words;
      KeepFirstConcat(Cat(Cat(q[0], q[1]), q[2]), q[3], n);
      KeepFirstConcat(Cat(q[0], q[1]), q[2], n);
      KeepFirstConcat(q[0], q[1], n);
    }
  }

  lemma KeepFirstConcat(a: seq<bool>, b: seq<bool>, n: nat)
    ensures KeepFirst(a + b, n) == KeepFirst(a, n) + KeepFirst(b, if n > |a| then n - |a| else 0)
  {
  }

  method TruncateIP(ip: Address, length: int) returns (r: Address)
    ensures length < 0 || ip.Unspec? ==> r == Unspec
    ensures length >= 0 ==> SameFamily(r, ip) && Bits(r) == KeepFirst(Bits(ip), length)
  {
    if length < 0 {
      return Unspec;
    }
    match ip {
      case Unspec =>
        r := Unspec;
      case V4(word) =>
        if length > 31 {
          return ip;
        }
        if length == 0 {
          return V4(Zeros(32));
        }
        var mask := Shl(Ones(32), 32 - length);
        r := V4(And(word, mask));
      case V6(words) =>
        if length > 127 {
          return ip;
        }
        if length == 0 {
          return V6([Zeros(32), Zeros(32), Zeros(32), Zeros(32)]);
        }
        var q := MaskWords(words, length);
        r := V6(q);
        TruncatedBits(ip, length);
    }
  }

  /** The IPv6 loop: words before the cut are kept, the one cut is masked, the others are cleared. */
  method MaskWords(words: Quad, length: nat) returns (q: Quad)
    requires 0 < length < 128
    ensures V6(q) == Truncated(V6(words), length)
  {
    var position := length / 32;
    var innerLength := 32 - (length - position * 32);
    // The 64-bit mask allows a shift by 32; the assignment keeps its low word.
    var innerMask := Shl(Zeros(32) + Ones(32), innerLength)[32..];
    assert forall j :: 0 <= j < 32 ==> innerMask[j] == (j < length - position * 32);
    q := words;
    for i := 0 to 4
      invariant forall k :: i <= k < 4 ==> q[k] == words[k]
      invariant forall k :: 0 <= k < i ==> q[k] == KeepFirst(words[k], Rest(length, k))
    {
      if i == position {
        q := q[i := And(q[i], innerMask)];
      } else if i > position {
        q := q[i := Zeros(32)];
      }
      assert q[i] == KeepFirst(words[i], Rest(length, i));
    }
  }

  /** What is left of the length at the k-th word. */
  function Rest(length: nat, k: nat): nat {
    if length > 32 * k then length - 32 * k else 0
  }

  /** Truncating twice is truncating to the shorter length. */
  lemma TruncateCompose(ip: Address, a: nat, b: nat)
    ensures Truncated(Truncated(ip, a), b) == Truncated(ip, if a < b then a else b)
  {
    var n := if a < b then a else b;
    TruncatedBits(ip, a);
    TruncatedBits(Truncated(ip, a), b);
    TruncatedBits(ip, n);
    assert KeepFirst(KeepFirst(Bits(ip), a), b) == KeepFirst(Bits(ip), n);
    BitsAreTheAddress(Truncated(Truncated(ip, a), b), Truncated(ip, n));
  }

  /** Truncation forgets everything behind the prefix, and nothing in it. */
  lemma TruncatedEqual(a: Address, b: Address, n: nat)
    requires SameFamily(a, b) && n <= Width(a)
    ensures Truncated(a, n) == Truncated(b, n) <==> Bits(a)[..n] == Bits(b)[..n]
  {
    TruncatedBits(a, n);
    TruncatedBits(b, n);
    BitsAreTheAddress(Truncated(a, n), Truncated(b, n));
    if Truncated(a, n) == Truncated(b, n) {
      forall i | 0 <= i < n ensures Bits(a)[i] == Bits(b)[i] {
        assert KeepFirst(Bits(a), n)[i] == KeepFirst(Bits(b), n)[i];
      }
    } else {
      if Bits(a)[..n] == Bits(b)[..n] {
        forall i | 0 <= i < n ensures Bits(a)[i] == Bits(b)[i] {
          assert Bits(a)[..n][i] == Bits(b)[..n][i];
        }
      }
    }
  }

  // ---- Order ----

  /** The first difference decides. */
  ghost predicate Lex(a: seq<nat>, b: seq<nat>)
    requires |a| == |b|
  {
    exists k :: 0 <= k < |a| && a[k] < b[k] && a[..k] == b[..k]
  }

  ghost predicate BitLess(a: seq<bool>, b: seq<bool>)
    requires |a| == |b|
  {
    exists k :: 0 <= k < |a| && !a[k] && b[k] && a[..k] == b[..k]
  }

  /** The sixteen bytes that memcmp sees. */
  function ByteAt(ip: Address, i: nat): nat
    requires ip.V6? && i < 16
  {
    Number(Bits(ip)[8 * i..8 * i + 8])
  }

  function Memory(ip: Address): (m: seq<nat>)
    requires ip.V6?
    ensures |m| == 16
  {
    seq(16, i requires 0 <= i < 16 => ByteAt(ip, i))
  }

  /** operator<: IPv4 before IPv6, no address before either; then the number, or the bytes. */
  ghost predicate Less(a: Address, b: Address) {
    if !SameFamily(a, b) then a.Unspec? || (a.V4? && b.V6?)
    else
      match a
      case Unspec => false
      case V4(w) => Number(w) < Number(b.word)
      case V6(_) => Lex(Memory(a), Memory(b))
  }

  lemma {:induction false} NumberOrder(a: seq<bool>, b: seq<bool>)
    requires |a| == |b|
    ensures Number(a) < Number(b) <==> BitLess(a, b)
    ensures Number(a) == Number(b) <==> a == b
    decreases |a|
  {
    if a != [] {
      var n := |a| - 1;
      NumberOrder(a[..n], b[..n]);
      NumberOrder(b[..n], a[..n]);
      BitLessSplit(a, b);
      assert a == a[..n] + [a[n]] && b == b[..n] + [b[n]];
    }
  }

  lemma BitLessSplit(a: seq<bool>, b: seq<bool>)
    requires |a| == |b| > 0
    ensures BitLess(a, b) <==>
            BitLess(a[..|a| - 1], b[..|a| - 1]) || (a[..|a| - 1] == b[..|a| - 1] && !a[|a| - 1] && b[|a| - 1])
  {
    var n := |a| - 1;
    if BitLess(a, b) {
      var k :| 0 <= k < |a| && !a[k] && b[k] && a[..k] == b[..k];
      if k < n {
        assert a[..n][..k] == a[..k] && b[..n][..k] == b[..k] && !a[..n][k];
      }
    }
    if BitLess(a[..n], b[..n]) {
      var k :| 0 <= k < n && !a[..n][k] && b[..n][k] && a[..n][..k] == b[..n][..k];
      assert a[..n][..k] == a[..k] && b[..n][..k] == b[..k] && !a[k];
    }
  }

  lemma MemoryOrder(a: Address, b: Address)
    requires a.V6? && b.V6?
    ensures Lex(Memory(a), Memory(b)) <==> BitLess(Bits(a), Bits(b))
  {
    if Lex(Memory(a), Memory(b)) {
      var k :| 0 <= k < 16 && Memory(a)[k] < Memory(b)[k] && Memory(a)[..k] == Memory(b)[..k];
      MemoryLess(a, b, k);
    }
    if BitLess(Bits(a), Bits(b)) {
      var m :| 0 <= m < 128 && !Bits(a)[m] && Bits(b)[m] && Bits(a)[..m] == Bits(b)[..m];
      BitsLess(a, b, m);
    }
  }

  lemma {:induction false} MemoryPrefix(a: Address, b: Address, k: nat)
    requires a.V6? && b.V6? && k <= 16
    ensures Memory(a)[..k] == Memory(b)[..k] <==> Bits(a)[..8 * k] == Bits(b)[..8 * k]
  {
    if k > 0 {
      var m := 8 * (k - 1);
      var x, y := Bits(a), Bits(b);
      MemoryPrefix(a, b, k - 1);
      NumberOrder(x[m..m + 8], y[m..m + 8]);
      Extends(Memory(a), Memory(b), k - 1, k);
      Extends(x, y, m, m + 8);
      assert Memory(a)[k - 1..k] == [ByteAt(a, k - 1)] && Memory(b)[k - 1..k] == [ByteAt(b, k - 1)];
    }
  }

  lemma Extends<T>(x: seq<T>, y: seq<T>, m: nat, n: nat)
    requires m <= n <= |x| && n <= |y|
    ensures x[..n] == y[..n] <==> x[..m] == y[..m] && x[m..n] == y[m..n]
  {
    assert x[..n] == x[..m] + x[m..n] && y[..n] == y[..m] + y[m..n];
    if x[..n] == y[..n] {
      assert x[..m] == x[..n][..m] && x[m..n] == x[..n][m..];
      assert y[..m] == y[..n][..m] && y[m..n] == y[..n][m..];
    }
  }

  lemma MemoryLess(a: Address, b: Address, k: nat)
    requires a.V6? && b.V6? && k < 16 && Memory(a)[k] < Memory(b)[k] && Memory(a)[..k] == Memory(b)[..k]
    ensures BitLess(Bits(a), Bits(b))
  {
    var x, y := Bits(a), Bits(b);
    var u, v := x[8 * k..8 * k + 8], y[8 * k..8 * k + 8];
    NumberOrder(u, v);
    MemoryPrefix(a, b, k);
    LaterDifference(x, y, 8 * k, 8 * k + 8);
  }

  lemma LaterDifference(x: seq<bool>, y: seq<bool>, m: nat, n: nat)
    requires m <= n <= |x| == |y| && x[..m] == y[..m] && BitLess(x[m..n], y[m..n])
    ensures BitLess(x, y)
  {
    var u, v := x[m..n], y[m..n];
    var j :| 0 <= j < |u| && !u[j] && v[j] && u[..j] == v[..j];
    Extends(x, y, m, m + j);
    assert x[m..m + j] == u[..j] && y[m..m + j] == v[..j];
    assert x[..m + j] == y[..m + j] && !x[m + j] && y[m + j];
  }

  lemma BitsLess(a: Address, b: Address, m: nat)
    requires a.V6? && b.V6? && m < 128 && !Bits(a)[m] && Bits(b)[m] && Bits(a)[..m] == Bits(b)[..m]
    ensures Lex(Memory(a), Memory(b))
  {
    var x, y, k := Bits(a), Bits(b), m / 8;
    var j := m - 8 * k;
    var u, v := x[8 * k..8 * k + 8], y[8 * k..8 * k + 8];
    Extends(x, y, 8 * k, m);
    assert x[8 * k..m] == u[..j] && y[8 * k..m] == v[..j];
    assert !u[j] && v[j];
    NumberOrder(u, v);
    MemoryPrefix(a, b, k);
    assert Memory(a)[..k] == Memory(b)[..k] && Memory(a)[k] < Memory(b)[k];
  }

  /** Within a family, the order is that of the bits. */
  lemma LessIsBitLess(a: Address, b: Address)
    requires SameFamily(a, b)
    ensures Less(a, b) <==> BitLess(Bits(a), Bits(b))
  {
    match a
    case Unspec =>
    case V4(w) => NumberOrder(w, b.word);
    case V6(_) => MemoryOrder(a, b);
  }

  /** Exactly one of less, equal and greater holds, so operator> is the converse of operator<; no address comes
      first, then IPv4, then IPv6. */
  lemma Trichotomy(a: Address, b: Address)
    ensures Less(a, b) ==> a != b && !Less(b, a)
    ensures a != b && !Less(a, b) ==> Less(b, a)
    ensures (a.Unspec? && !b.Unspec?) || (a.V4? && b.V6?) ==> Less(a, b)
  {
    if SameFamily(a, b) {
      LessIsBitLess(a, b);
      LessIsBitLess(b, a);
      BitsAreTheAddress(a, b);
      NumberOrder(Bits(a), Bits(b));
      NumberOrder(Bits(b), Bits(a));
    }
  }

  lemma {:induction false} LessTransitive(a: Address, b: Address, c: Address)
    requires Less(a, b) && Less(b, c)
    ensures Less(a, c)
  {
    if SameFamily(a, b) && SameFamily(b, c) {
      LessIsBitLess(a, b);
      LessIsBitLess(b, c);
      LessIsBitLess(a, c);
      NumberOrder(Bits(a), Bits(b));
      NumberOrder(Bits(b), Bits(c));
      NumberOrder(Bits(a), Bits(c));
    }
  }

  /** Truncation never reverses the order. */
  lemma TruncateMonotone(a: Address, b: Address, n: nat)
    requires !Less(b, a)
    ensures !Less(Truncated(b, n), Truncated(a, n))
  {
    if SameFamily(a, b) && Less(Truncated(b, n), Truncated(a, n)) {
      var x, y := Bits(b), Bits(a);
      LessIsBitLess(Truncated(b, n), Truncated(a, n));
      TruncatedBits(a, n);
      TruncatedBits(b, n);
      KeepFirstReflects(x, y, n);
      LessIsBitLess(b, a);
    }
  }

  lemma KeepFirstReflects(x: seq<bool>, y: seq<bool>, n: nat)
    requires |x| == |y| && BitLess(KeepFirst(x, n), KeepFirst(y, n))
    ensures BitLess(x, y)
  {
    var u, v := KeepFirst(x, n), KeepFirst(y, n);
    var k :| 0 <= k < |x| && !u[k] && v[k] && u[..k] == v[..k];
    forall i | 0 <= i < k ensures x[i] == y[i] {
      assert u[..k][i] == v[..k][i];
    }
    assert x[..k] == y[..k];
  }

  /** The truncated address is the first one with that prefix. */
  lemma TruncatedIsFirst(a: Address, b: Address, n: nat)
    requires SameFamily(a, b) && Truncated(a, n) == Truncated(b, n)
    ensures !Less(b, Truncated(a, n))
  {
    TruncatedBits(b, n);
    LessIsBitLess(b, Truncated(a, n));
    var x := Bits(b);
    forall k | 0 <= k < |x| && !x[k] ensures !KeepFirst(x, n)[k] {}
  }

  // ---- Counting the bits of a mask ----

  /** One more than the index of the last set bit; 0 if there is none. */
  function LastSet(w: seq<bool>): (n: nat)
    ensures n <= |w|
    ensures n > 0 ==> w[n - 1]
    ensures forall i :: n <= i < |w| ==> !w[i]
  {
    if w == [] then 0 else if w[|w| - 1] then |w| else LastSet(w[..|w| - 1])
  }

  /** How many words at the front are all ones. */
  function FullWords(q: seq<Word>): (n: nat)
    ensures n <= |q|
    ensures forall i :: 0 <= i < n ==> q[i] == Ones(32)
    ensures n < |q| ==> q[n] != Ones(32)
  {
    if q == [] || q[0] != Ones(32) then 0 else 1 + FullWords(q[1..])
  }

  /** What is counted, whether or not the mask is a prefix. */
  function MaskBits(mask: Address): nat {
    match mask
    case Unspec => 0
    case V4(w) => LastSet(w)
    case V6(q) => var i := FullWords(q); 32 * i + if i < 4 then LastSet(q[i]) else 0
  }

  /** The bit with that many bits below it, alone. */
  function OneHot(n: nat, width: nat): (w: seq<bool>)
    requires n < width
    ensures |w| == width
    ensures forall i :: 0 <= i < width ==> w[i] == (i == width - 1 - n)
  {
    seq(width, i => i == width - 1 - n)
  }

  /** Anding with the negative isolates the lowest set bit. */
  lemma {:induction false} Isolates(w: seq<bool>)
    ensures LastSet(w) == 0 ==> And(w, Inc(Not(w))) == Zeros(|w|)
    ensures LastSet(w) > 0 ==> And(w, Inc(Not(w))) == OneHot(|w| - LastSet(w), |w|)
  {
    if w != [] {
      var n := |w| - 1;
      Negated(w);
      AndLast(w, Inc(Not(w)));
      if w[n] {
        AndNot(w[..n]);
        assert Zeros(n) + [true] == OneHot(0, |w|);
      } else {
        Isolates(w[..n]);
        ShiftedDown(n, LastSet(w));
      }
    }
  }

  lemma Negated(w: seq<bool>)
    requires w != []
    ensures Inc(Not(w))[|w| - 1] == w[|w| - 1]
    ensures Inc(Not(w))[..|w| - 1] == if w[|w| - 1] then Not(w[..|w| - 1]) else Inc(Not(w[..|w| - 1]))
  {
    var n := |w| - 1;
    assert Not(w)[..n] == Not(w[..n]);
    if w[n] {
      assert Inc(Not(w)) == Not(w[..n]) + [true];
    } else {
      assert Inc(Not(w)) == Inc(Not(w[..n])) + [false];
    }
  }

  lemma AndLast(a: seq<bool>, b: seq<bool>)
    requires |a| == |b| > 0
    ensures And(a, b) == And(a[..|a| - 1], b[..|a| - 1]) + [a[|a| - 1] && b[|a| - 1]]
  {
  }

  lemma AndNot(a: seq<bool>)
    ensures And(a, Not(a)) == Zeros(|a|)
  {
  }

  lemma ShiftedDown(n: nat, k: nat)
    requires k <= n
    ensures Zeros(n) + [false] == Zeros(n + 1)
    ensures k > 0 ==> OneHot(n - k, n) + [false] == OneHot(n + 1 - k, n + 1)
  {
  }

  predicate NonZero(w: Word) {
    exists i :: 0 <= i < 32 && w[i]
  }

  /** The five masks pick the places whose position has a zero in one binary digit. */
  lemma MaskPicks(mask: Word, n: nat)
    requires n < 32
    ensures NonZero(And(OneHot(n, 32), mask)) <==> mask[31 - n]
  {
    if mask[31 - n] {
      assert And(OneHot(n, 32), mask)[31 - n];
    }
  }

  lemma HexBits(digits: seq<nat>, n: nat)
    requires n < 32 && |digits| == 8 && forall d :: d in digits ==> d < 16
    ensures Hex(digits)[31 - n] == DigitBit(digits[7 - n / 4], 3 - n % 4)
  {
    var q, r := n / 4, n % 4;
    assert 31 - n == 4 * (7 - q) + (3 - r);
    assert (31 - n) / 4 == 7 - q && (31 - n) % 4 == 3 - r;
  }

  const HALVES: seq<nat> := [0, 0, 0, 0, 15, 15, 15, 15]
  const BYTES: seq<nat> := [0, 0, 15, 15, 0, 0, 15, 15]
  const NIBBLES: seq<nat> := [0, 15, 0, 15, 0, 15, 0, 15]
  const PAIRS: seq<nat> := [3, 3, 3, 3, 3, 3, 3, 3]
  const SINGLES: seq<nat> := [5, 5, 5, 5, 5, 5, 5, 5]

  lemma MaskBitsAt(n: nat)
    requires n < 32
    ensures Hex(HALVES)[31 - n] == (n / 16 == 0)
    ensures Hex(BYTES)[31 - n] == (n / 8 % 2 == 0)
    ensures Hex(NIBBLES)[31 - n] == (n / 4 % 2 == 0)
  {
    var q := n / 4;
    assert n / 16 == q / 4 && n / 8 == q / 2;
    HexBits(HALVES, n);
    HexBits(BYTES, n);
    HexBits(NIBBLES, n);
    AllOrNothing(q, 3 - n % 4);
  }

  lemma AllOrNothing(q: nat, i: nat)
    requires q < 8 && i < 4
    ensures DigitBit(HALVES[7 - q], i) == (q / 4 == 0)
    ensures DigitBit(BYTES[7 - q], i) == (q / 2 % 2 == 0)
    ensures DigitBit(NIBBLES[7 - q], i) == (q % 2 == 0)
  {
    assert q == 0 || q == 1 || q == 2 || q == 3 || q == 4 || q == 5 || q == 6 || q == 7;
  }

  lemma LowMaskBitsAt(n: nat)
    requires n < 32
    ensures Hex(PAIRS)[31 - n] == (n / 2 % 2 == 0)
    ensures Hex(SINGLES)[31 - n] == (n % 2 == 0)
  {
    var r := n % 4;
    assert n == 4 * (n / 4) + r;
    HexBits(PAIRS, n);
    HexBits(SINGLES, n);
    assert PAIRS[7 - n / 4] == 3 && SINGLES[7 - n / 4] == 5;
    assert r == 0 || r == 1 || r == 2 || r == 3;
  }

  /** Binary search for the single set bit, with the masks of the source. */
  method TrailingZeros(w: Word) returns (zeroes: nat)
    requires LastSet(w) > 0
    ensures zeroes == 32 - LastSet(w)
  {
    Isolates(w);
    ghost var n := 32 - LastSet(w);
    var x: Word := And(w, Inc(Not(w)));
    zeroes := 32;
    if NonZero(x) { zeroes := zeroes - 1; }
    zeroes := Step(zeroes, x, Hex(HALVES), 16, n);
    zeroes := Step(zeroes, x, Hex(BYTES), 8, n);
    zeroes := Step(zeroes, x, Hex(NIBBLES), 4, n);
    zeroes := Step(zeroes, x, Hex(PAIRS), 2, n);
    zeroes := Step(zeroes, x, Hex(SINGLES), 1, n);
    Search(n);
  }

  /** The weights of the tests that succeed sum to what is above the bit. */
  lemma Search(n: nat)
    requires n < 32
    ensures 31 - n == (if Hex(HALVES)[31 - n] then 16 else 0) + (if Hex(BYTES)[31 - n] then 8 else 0)
                      + (if Hex(NIBBLES)[31 - n] then 4 else 0) + (if Hex(PAIRS)[31 - n] then 2 else 0)
                      + if Hex(SINGLES)[31 - n] then 1 else 0
  {
    MaskBitsAt(n);
    LowMaskBitsAt(n);
    BinaryDigits(n);
  }

  /** One test of the search. */
  method Step(zeroes: nat, x: Word, mask: Word, weight: nat, ghost n: nat) returns (r: nat)
    requires n < 32 && x == OneHot(n, 32) && weight <= zeroes
    ensures r == if mask[31 - n] then zeroes - weight else zeroes
  {
    MaskPicks(mask, n);
    r := if NonZero(And(x, mask)) then zeroes - weight else zeroes;
  }

  lemma BinaryDigits(n: nat)
    requires n < 32
    ensures n == 16 * (n / 16) + 8 * (n / 8 % 2) + 4 * (n / 4 % 2) + 2 * (n / 2 % 2) + n % 2
  {
    assert n == 2 * (n / 2) + n % 2;
    assert n / 2 == 2 * (n / 4) + n / 2 % 2;
    assert n / 4 == 2 * (n / 8) + n / 4 % 2;
    assert n / 8 == 2 * (n / 16) + n / 8 % 2;
  }

  method CountIPMaskBits(mask: Address) returns (n: nat)
    ensures n == MaskBits(mask)
  {
    var word, bits := Zeros(32), 0;
    match mask {
      case Unspec =>
        return 0;
      case V4(w) =>
        word := w;
      case V6(words) =>
        var i := 0;
        while i < 4 && words[i] == Ones(32)
          invariant i <= 4 && FullWords(words) == i + FullWords(words[i..])
        {
          i := i + 1;
        }
        if i < 4 {
          word := words[i];
        }
        bits := 32 * i;
    }
    if word == Zeros(32) {
      return bits;
    }
    var zeroes := TrailingZeros(word);
    n := bits + (32 - zeroes);
  }

  /** The all-ones address of the family. */
  function AllOnes(ip: Address): (r: Address)
    ensures SameFamily(r, ip)
  {
    match ip
    case Unspec => Unspec
    case V4(_) => V4(Ones(32))
    case V6(_) => V6([Ones(32), Ones(32), Ones(32), Ones(32)])
  }

  lemma {:induction false} LastSetOfPrefix(w: seq<bool>, n: nat)
    requires n <= |w| && forall i :: 0 <= i < |w| ==> w[i] == (i < n)
    ensures LastSet(w) == n
  {
    if n < |w| { LastSetOfPrefix(w[..|w| - 1], n); }
  }

  /** The prefix length is recovered from the mask it makes. */
  lemma CountInvertsTruncate(ip: Address, n: nat)
    requires n <= Width(ip)
    ensures MaskBits(Truncated(AllOnes(ip), n)) == n
  {
    var mask := Truncated(AllOnes(ip), n);
    match ip
    case Unspec =>
    case V4(_) => LastSetOfPrefix(mask.word, n);
    case V6(_) =>
      var q, i := mask.words, FullWords(mask.words);
      forall k | 0 <= k < n / 32 ensures q[k] == Ones(32) {}
      if n / 32 < 4 {
        assert !q[n / 32][31];
        LastSetOfPrefix(q[n / 32], n % 32);
      }
      assert i == n / 32;
  }

  /** A mask is a prefix exactly when its count rebuilds it. */
  lemma CountRebuildsPrefixes(mask: Address)
    ensures (exists n: nat :: n <= Width(mask) && mask == Truncated(AllOnes(mask), n))
            <==> mask == Truncated(AllOnes(mask), MaskBits(mask))
  {
    if n: nat :| n <= Width(mask) && mask == Truncated(AllOnes(mask), n) {
      CountInvertsTruncate(mask, n);
    }
    assert MaskBits(mask) <= Width(mask);
  }
}
