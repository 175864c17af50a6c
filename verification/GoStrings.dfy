/** The functions of Go's strings package that goconfig uses, on strings of characters. */
module GoStrings {

  /** unicode.IsSpace */
  predicate IsSpace(c: char) {
    || c in {'\t', '\n', '\U{b}', '\U{c}', '\r', ' ', '\U{85}', '\U{a0}', '\U{1680}'}
    || '\U{2000}' <= c <= '\U{200a}' || c in {'\U{2028}', '\U{2029}', '\U{202f}', '\U{205f}', '\U{3000}'}
  }

  function TrimLeft(s: string): string {
    if s == "" || !IsSpace(s[0]) then s else TrimLeft(s[1..])
  }

  function TrimRight(s: string): string {
    if s == "" || !IsSpace(s[|s| - 1]) then s else TrimRight(s[..|s| - 1])
  }

  function TrimSpace(s: string): string {
    TrimRight(TrimLeft(s))
  }

  predicate Trimmed(s: string) {
    s == "" || (!IsSpace(s[0]) && !IsSpace(s[|s| - 1]))
  }

  lemma {:induction false} TrimLeftTrims(s: string)
    ensures TrimLeft(s) == "" || !IsSpace(TrimLeft(s)[0])
    ensures |TrimLeft(s)| <= |s| && TrimLeft(s) == s[|s| - |TrimLeft(s)|..]
  {
    if s != "" && IsSpace(s[0]) { TrimLeftTrims(s[1..]); }
  }

  lemma {:induction false} TrimRightTrims(s: string)
    ensures TrimRight(s) == "" || !IsSpace(TrimRight(s)[|TrimRight(s)| - 1])
    ensures |TrimRight(s)| <= |s| && TrimRight(s) == s[..|TrimRight(s)|]
  {
    if s != "" && IsSpace(s[|s| - 1]) { TrimRightTrims(s[..|s| - 1]); }
  }

  /** Trimming yields a trimmed string, and changes nothing but an untrimmed one. */
  lemma TrimSpaceTrims(s: string)
    ensures Trimmed(TrimSpace(s))
    ensures TrimSpace(s) == s <==> Trimmed(s)
  {
    TrimLeftTrims(s);
    TrimRightTrims(TrimLeft(s));
  }

  /** p begins at j. */
  predicate At(s: string, p: string, j: int) {
    0 <= j <= |s| - |p| && s[j..j + |p|] == p
  }

  lemma AtTail(s: string, p: string, j: int)
    requires s != ""
    ensures j > 0 ==> At(s, p, j) == At(s[1..], p, j - 1)
    ensures j < |s| - |p| ==> At(s, p, j) == At(s[..|s| - 1], p, j)
  {
    if 0 < j <= |s| - |p| {
      var u, v := s[j..j + |p|], s[1..][j - 1..j - 1 + |p|];
      assert forall k :: 0 <= k < |p| ==> u[k] == v[k];
    }
    if 0 <= j < |s| - |p| {
      var u, v := s[j..j + |p|], s[..|s| - 1][j..j + |p|];
      assert forall k :: 0 <= k < |p| ==> u[k] == v[k];
    }
  }

  /** The first place where p begins; -1 if it does not occur. */
  function Index(s: string, p: string): (i: int)
    ensures i == -1 || 0 <= i <= |s| - |p|
  {
    if |s| < |p| then -1
    else if s[..|p|] == p then 0
    else if s == "" then -1
    else
      var i := Index(s[1..], p);
      if i < 0 then -1 else i + 1
  }

  lemma {:induction false} IndexFinds(s: string, p: string)
    ensures Index(s, p) == -1 || At(s, p, Index(s, p))
  {
    if |s| >= |p| && s != "" && s[..|p|] != p {
      IndexFinds(s[1..], p);
      AtTail(s, p, Index(s, p));
    }
  }

  lemma {:induction false} IndexIsFirst(s: string, p: string, j: int)
    requires At(s, p, j)
    ensures 0 <= Index(s, p) <= j
  {
    if s != "" && s[..|p|] != p {
      AtTail(s, p, j);
      IndexIsFirst(s[1..], p, j - 1);
    }
  }

  /** The last place where p begins. */
  function LastIndex(s: string, p: string): (i: int)
    ensures i == -1 || 0 <= i <= |s| - |p|
  {
    if |s| < |p| then -1
    else if s[|s| - |p|..] == p then |s| - |p|
    else if s == "" then -1
    else LastIndex(s[..|s| - 1], p)
  }

  lemma {:induction false} LastIndexIsLast(s: string, p: string, j: int)
    requires At(s, p, j)
    ensures j <= LastIndex(s, p)
  {
    if s != "" && s[|s| - |p|..] != p {
      assert j < |s| - |p|;
      AtTail(s, p, j);
      LastIndexIsLast(s[..|s| - 1], p, j);
    }
  }

  /** A character occurs exactly where Index finds it. */
  lemma ContainsChar(s: string, c: char)
    ensures Contains(s, [c]) <==> c in s
  {
    IndexFinds(s, [c]);
    if Contains(s, [c]) { assert s[Index(s, [c])..Index(s, [c]) + 1][0] == c; }
    if c in s {
      var j :| 0 <= j < |s| && s[j] == c;
      assert s[j..j + 1] == [c];
      IndexIsFirst(s, [c], j);
    }
  }

  predicate Contains(s: string, p: string) {
    Index(s, p) >= 0
  }

  predicate IsSeparator(c: char) {
    c == '=' || c == ':'
  }

  /** strings.IndexAny(s, "=:") */
  function IndexSeparator(s: string): (i: int)
    ensures -1 <= i < |s|
  {
    if s == "" then -1
    else if IsSeparator(s[0]) then 0
    else
      var i := IndexSeparator(s[1..]);
      if i < 0 then -1 else i + 1
  }

  /** It is the first separator. */
  lemma {:induction false} SeparatorAt(s: string, i: nat)
    requires i < |s| && IsSeparator(s[i]) && forall j :: 0 <= j < i ==> !IsSeparator(s[j])
    ensures IndexSeparator(s) == i
  {
    if i > 0 { SeparatorAt(s[1..], i - 1); }
  }

  /** The length in bytes of the UTF-8 encoding. */
  function ByteLen(s: string): (n: nat)
    ensures n >= |s|
  {
    if s == "" then 0
    else
      var c := s[0] as int;
      (if c < 0x80 then 1 else if c < 0x800 then 2 else if c < 0x1_0000 then 3 else 4) + ByteLen(s[1..])
  }

  /** fmt.Sprint of a natural number */
  function Decimal(n: nat): string {
    (if n < 10 then "" else Decimal(n / 10)) + [(n % 10 + 48) as char]
  }

  /** What a string of decimal digits denotes. */
  function Numeral(s: string): int {
    if s == "" then 0 else 10 * Numeral(s[..|s| - 1]) + (s[|s| - 1] as int - '0' as int)
  }

  /** Printing a number gives the digits that denote it, without a leading zero. */
  lemma {:induction false} DecimalDenotes(n: nat)
    ensures Numeral(Decimal(n)) == n && Decimal(n) != "" && (Decimal(n)[0] == '0' ==> Decimal(n) == "0")
    ensures forall c :: c in Decimal(n) ==> '0' <= c <= '9'
  {
    if n >= 10 {
      DecimalDenotes(n / 10);
      assert Decimal(n)[..|Decimal(n)| - 1] == Decimal(n / 10);
    }
  }
}
