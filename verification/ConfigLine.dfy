/** One assignment of an INI file: how it is printed, and how the line parser reads it. */
module ConfigLines {
  import opened GoStrings
  import opened Wrappers

  const TRIPLE := "\"\"\""

  // ---- Printing ----

  function KeyText(key: string): string
    requires key != ""
  {
    var name := if key[0] == '#' then "-" else key;
    if Contains(name, "=") || Contains(name, ":") then
      if Contains(name, "`") then
        if Contains(name, "\"") then TRIPLE + name + TRIPLE else "\"" + name + "\""
      else "`" + name + "`"
    else name
  }

  function ValueText(value: string): string {
    if Contains(value, "`") then
      if Contains(value, "\"") then TRIPLE + value + TRIPLE else "\"" + value + "\""
    else value
  }

  function EqualSign(pretty: bool): string {
    if pretty then " = " else "="
  }

  function Assignment(key: string, value: string, pretty: bool): string
    requires key != ""
  {
    KeyText(key) + EqualSign(pretty) + ValueText(value)
  }

  // ---- Parsing a trimmed line ----

  datatype Quoting = Plain | Backtick | Double | Triple

  function Mark(q: Quoting): string {
    match q
    case Plain => ""
    case Backtick => "`"
    case Double => "\""
    case Triple => TRIPLE
  }

  function KeyQuote(line: string): Quoting
    requires line != ""
  {
    if line[0] == '"' then (if ByteLen(line) >= 6 && |line| >= 3 && line[..3] == TRIPLE then Triple else Double)
    else if line[0] == '`' then Backtick
    else Plain
  }

  /** The key, and the index of the separator behind it. */
  datatype Keyed = Keyed(key: string, separator: nat)

  function ParseKey(line: string): (r: Option<Keyed>)
    requires line != ""
    ensures r.Some? ==> r.value.separator < |line|
  {
    var q := KeyQuote(line);
    if q == Plain then
      var i := IndexSeparator(line);
      if i <= 0 then None else Some(Keyed(TrimSpace(line[..i]), i))
    else
      ParseQuotedKey(line, Mark(q))
  }

  function ParseQuotedKey(line: string, mark: string): (r: Option<Keyed>)
    ensures r.Some? ==> r.value.separator < |line|
  {
    if |line| < |mark| then None
    else
      var pos := Index(line[|mark|..], mark);
      if pos == -1 then None
      else
        var start := pos + |mark|;
        var i := IndexSeparator(line[start..]);
        if i <= 0 then None else Some(Keyed(line[|mark|..start], i + start))
  }

  /** The value in what follows the separator, already trimmed. */
  function ParseValue(right: string): Option<string> {
    var n := ByteLen(right);
    var q := if n >= 2 && right[0] == '`' then "`"
             else if n >= 6 && |right| >= 3 && right[..3] == TRIPLE then TRIPLE
             else "";
    if q != "" then
      var pos := LastIndex(right[|q|..], q);
      if pos == -1 then None else Some(right[|q|..pos + |q|])
    else Some(TrimSpace(right))
  }

  datatype Parsed = Parsed(key: string, value: string)

  function ParseAssignment(line: string): Option<Parsed>
    requires line != ""
  {
    var k := ParseKey(line);
    if k == None then None
    else
      var v := ParseValue(TrimSpace(line[k.value.separator + 1..]));
      if v == None then None else Some(Parsed(k.value.key, v.value))
  }

  // ---- Values ----

  /** The values that survive: quoted ones with both quote characters; bare ones that are trimmed and do
      not look triple-quoted. */
  predicate ValueOk(value: string) {
    if '`' in value then '"' in value
    else Trimmed(value) && !(ByteLen(value) >= 6 && |value| >= 3 && value[..3] == TRIPLE)
  }

  /** A value comes back exactly if it is one of these. */
  lemma ValueRoundTrip(value: string)
    ensures ParseValue(TrimSpace(ValueText(value))) == Some(value) <==> ValueOk(value)
  {
    ContainsChar(value, '`');
    ContainsChar(value, '"');
    if '`' in value {
      if '"' in value { TripleValue(value); } else { DoubleValue(value); }
    } else {
      BareValue(value);
    }
  }

  lemma TripleValue(value: string)
    ensures TrimSpace(TRIPLE + value + TRIPLE) == TRIPLE + value + TRIPLE
    ensures ParseValue(TRIPLE + value + TRIPLE) == Some(value)
  {
    var text := TRIPLE + value + TRIPLE;
    TrimSpaceTrims(text);
    assert text[..3] == TRIPLE && text[3..] == value + TRIPLE;
    assert At(text[3..], TRIPLE, |value|);
    LastIndexIsLast(text[3..], TRIPLE, |value|);
    assert text[3..][..|value|] == value;
  }

  /** Plain double quotes are not taken off. */
  lemma DoubleValue(value: string)
    requires '`' in value && '"' !in value
    ensures ParseValue(TrimSpace("\"" + value + "\"")) == Some("\"" + value + "\"")
  {
    var text := "\"" + value + "\"";
    TrimSpaceTrims(text);
    assert text[1] == value[0];
  }

  lemma BareValue(value: string)
    requires '`' !in value
    ensures ParseValue(TrimSpace(value)) == Some(value) <==> ValueOk(value)
  {
    TrimSpaceTrims(value);
    if Trimmed(value) {
      NoQuote(value);
    } else {
      Shorter(value);
      ParsedIsNoLonger(TrimSpace(value));
    }
  }

  lemma NoQuote(t: string)
    requires '`' !in t && Trimmed(t)
    ensures ParseValue(t) == Some(t) <==> !(ByteLen(t) >= 6 && |t| >= 3 && t[..3] == TRIPLE)
  {
    TrimSpaceTrims(t);
    assert t != "" ==> t[0] in t;
    assert ParseValue(t).Some? && ByteLen(t) >= 6 && |t| >= 3 && t[..3] == TRIPLE ==> |ParseValue(t).value| < |t|;
  }

  lemma Shorter(value: string)
    requires !Trimmed(value)
    ensures |TrimSpace(value)| < |value|
  {
    TrimLeftTrims(value);
    TrimRightTrims(TrimLeft(value));
    TrimSpaceTrims(value);
  }

  lemma ParsedIsNoLonger(t: string)
    requires Trimmed(t)
    ensures ParseValue(t).Some? ==> |ParseValue(t).value| <= |t|
  {
    TrimSpaceTrims(t);
  }

  // ---- Keys ----

  predicate HasSeparator(key: string) {
    '=' in key || ':' in key
  }

  /** The keys that survive. A key with a separator is quoted: with backticks if it has none, else with
      double quotes if it has none, else with triple ones; any other is bare. */
  predicate KeyOk(key: string) {
    && key != "" && key[0] != '#'
    && if HasSeparator(key) then
         '`' !in key || '"' !in key || (!Contains(key, TRIPLE) && key[|key| - 1] != '"')
       else Trimmed(key) && key[0] !in {'[', ';', '"', '`'} && key != "-"
  }

  /** An auto-increment key is printed as a dash. */
  predicate Auto(key: string) {
    key != "" && key[0] == '#'
  }

  function Quote(key: string): Quoting {
    if !HasSeparator(key) then Plain
    else if '`' !in key then Backtick
    else if '"' !in key then Double else Triple
  }

  lemma KeyTextIs(key: string)
    requires KeyOk(key)
    ensures KeyText(key) == Mark(Quote(key)) + key + Mark(Quote(key))
  {
    ContainsChar(key, '=');
    ContainsChar(key, ':');
    ContainsChar(key, '`');
    ContainsChar(key, '"');
  }

  lemma AutoText(key: string)
    requires Auto(key)
    ensures KeyText(key) == "-"
  {
    ContainsChar("-", '=');
    ContainsChar("-", ':');
  }

  predicate Blank(sp: string) {
    forall c :: c in sp ==> IsSpace(c)
  }

  /** The two signs that separate a key from its value. */
  predicate Sign(c: string) {
    c == "=" || c == ":"
  }

  /** The quote does not occur within the key, nor across its end. */
  lemma NoEarlierQuote(key: string, rest: string, i: nat)
    requires KeyOk(key) && HasSeparator(key) && i < |key|
    ensures !At(key + Mark(Quote(key)) + rest, Mark(Quote(key)), i)
  {
    var m := Mark(Quote(key));
    var s := key + m + rest;
    var n := |key| - 1;
    assert key[i] in key && s[i] == key[i] && s[n] == key[n];
    if Quote(key) == Triple {
      if i + 3 <= |key| {
        assert key[i..i + 3] == s[i..i + 3];
        if At(s, m, i) { IndexIsFirst(key, TRIPLE, i); }
      } else {
        assert s[i..i + 3][n - i] == s[n];
      }
    } else {
      assert s[i..i + 1][0] == s[i];
    }
  }

  /** The closing quote is found right behind the key. */
  lemma ClosingQuote(key: string, rest: string)
    requires KeyOk(key) && HasSeparator(key)
    ensures Index(key + Mark(Quote(key)) + rest, Mark(Quote(key))) == |key|
  {
    var m := Mark(Quote(key));
    var s := key + m + rest;
    assert At(s, m, |key|);
    IndexIsFirst(s, m, |key|);
    IndexFinds(s, m);
    if Index(s, m) < |key| { NoEarlierQuote(key, rest, Index(s, m)); }
  }

  lemma QuotedKey(key: string, sp: string, c: string, right: string)
    requires KeyOk(key) && HasSeparator(key) && Blank(sp) && Sign(c)
    ensures ParseKey(KeyText(key) + sp + c + right) == Some(Keyed(key, |KeyText(key)| + |sp|))
  {
    KeyTextIs(key);
    QuotedParse(key, Quote(key), sp, c, right);
  }

  lemma QuotedParse(key: string, q: Quoting, sp: string, c: string, right: string)
    requires KeyOk(key) && HasSeparator(key) && q == Quote(key) && Blank(sp) && Sign(c)
    ensures ParseKey(Mark(q) + key + Mark(q) + sp + c + right) == Some(Keyed(key, |Mark(q) + key + Mark(q)| + |sp|))
  {
    LineQuote(key, q, sp, c, right);
    QuotedBody(key, Mark(q), sp, c, right);
    ParseKeyIs(Mark(q) + key + Mark(q) + sp + c + right, q, Keyed(key, |Mark(q) + key + Mark(q)| + |sp|));
  }

  lemma QuotedBody(key: string, m: string, sp: string, c: string, right: string)
    requires KeyOk(key) && HasSeparator(key) && m == Mark(Quote(key)) && Blank(sp) && Sign(c)
    ensures ParseQuotedKey(m + key + m + sp + c + right, m) == Some(Keyed(key, |m + key + m| + |sp|))
  {
    ClosingQuote(key, sp + c + right);
    BehindQuote(m, sp, c, right);
    QuotedRest(key, m, sp, c, right);
  }

  lemma LineQuote(key: string, q: Quoting, sp: string, c: string, right: string)
    requires KeyOk(key) && HasSeparator(key) && q == Quote(key) && Sign(c)
    ensures var line := Mark(q) + key + Mark(q) + sp + c + right; line != "" && KeyQuote(line) == q
  {
    var m := Mark(q);
    OpeningQuote(key, m + sp + c + right);
    Regroup(m, key, sp, c, right);
  }

  lemma {:induction false} QuotedRest(key: string, m: string, sp: string, c: string, right: string)
    requires m != "" && Index(key + m + (sp + c + right), m) == |key|
    requires IndexSeparator(m + (sp + c + right)) == |m| + |sp|
    ensures ParseQuotedKey(m + key + m + sp + c + right, m) == Some(Keyed(key, |m| + |key| + (|m| + |sp|)))
  {
    var rest := sp + c + right;
    Slices(m, key, sp, c, right);
    FromSlices(m + key + m + sp + c + right, m, key, key + m + rest, m + rest, |m| + |sp|);
  }

  lemma Regroup(m: string, key: string, sp: string, c: string, right: string)
    ensures m + key + m + sp + c + right == m + key + (m + sp + c + right)
  {
  }

  lemma ParseKeyIs(line: string, q: Quoting, k: Keyed)
    requires line != "" && KeyQuote(line) == q != Plain && ParseQuotedKey(line, Mark(q)) == Some(k)
    ensures ParseKey(line) == Some(k)
  {
  }

  lemma {:induction false} BehindQuote(m: string, sp: string, c: string, right: string)
    requires (forall j :: 0 <= j < |m| ==> !IsSeparator(m[j])) && Blank(sp) && Sign(c)
    ensures IndexSeparator(m + (sp + c + right)) == |m| + |sp|
  {
    FirstSeparator(m, sp, c, right);
    SeparatorAt(m + (sp + c + right), |m| + |sp|);
  }

  lemma FirstSeparator(m: string, sp: string, c: string, right: string)
    requires (forall j :: 0 <= j < |m| ==> !IsSeparator(m[j])) && Blank(sp) && Sign(c)
    ensures IsSeparator((m + (sp + c + right))[|m| + |sp|])
    ensures forall j :: 0 <= j < |m| + |sp| ==> !IsSeparator((m + (sp + c + right))[j])
  {
    assert forall j :: 0 <= j < |sp| ==> sp[j] in sp;
  }

  lemma Slices(m: string, key: string, sp: string, c: string, right: string)
    ensures var line, rest := m + key + m + sp + c + right, sp + c + right;
            line[|m|..] == key + m + rest && line[|m| + |key|..] == m + rest && line[|m|..|m| + |key|] == key
  {
  }

  lemma FromSlices(line: string, m: string, key: string, a: string, b: string, i: nat)
    requires |m| + |key| <= |line| && line[|m|..] == a && line[|m| + |key|..] == b && line[|m|..|m| + |key|] == key
    requires Index(a, m) == |key| && i > 0 && IndexSeparator(b) == i
    ensures ParseQuotedKey(line, m) == Some(Keyed(key, |m| + |key| + i))
  {
  }

  lemma OpeningQuote(key: string, rest: string)
    requires KeyOk(key) && HasSeparator(key) && rest != ""
    ensures KeyQuote(Mark(Quote(key)) + key + rest) == Quote(key)
  {
    var m := Mark(Quote(key));
    var line := m + key + rest;
    if Quote(key) == Triple {
      assert line[..3] == TRIPLE && ByteLen(line) >= |line|;
      assert |key| >= 3;
    } else if Quote(key) == Double {
      assert line[1] == key[0] && key[0] in key;
    }
  }

  lemma BareKey(name: string, sp: string, c: string, right: string)
    requires name != "" && !HasSeparator(name) && Trimmed(name) && name[0] != '"' && name[0] != '`'
    requires Blank(sp) && Sign(c)
    ensures ParseKey(name + sp + c + right) == Some(Keyed(name, |name| + |sp|))
  {
    var line := name + sp + c + right;
    assert line[0] == name[0];
    forall j | 0 <= j < |name| ensures !IsSeparator(name[j]) { assert name[j] in name; }
    assert line == name + (sp + c + right);
    BehindQuote(name, sp, c, right);
    assert line[..|name| + |sp|] == name + sp;
    TrimTail(name, sp);
  }

  lemma {:induction false} TrimTail(name: string, sp: string)
    requires name != "" && Trimmed(name) && Blank(sp)
    ensures TrimSpace(name + sp) == name
  {
    TrimSpaceTrims(name);
    assert TrimLeft(name + sp) == name + sp;
    TrimRightTail(name, sp);
  }

  lemma {:induction false} TrimRightTail(name: string, sp: string)
    requires name != "" && !IsSpace(name[|name| - 1]) && Blank(sp)
    ensures TrimRight(name + sp) == name
  {
    if sp == "" {
      assert name + sp == name;
    } else {
      assert sp[|sp| - 1] in sp && (name + sp)[..|name + sp| - 1] == name + sp[..|sp| - 1];
      TrimRightTail(name, sp[..|sp| - 1]);
    }
  }

  lemma {:induction false} TrimLeftHead(text: string, sp: string)
    requires Blank(sp)
    ensures TrimLeft(sp + text) == TrimLeft(text)
  {
    if sp == "" {
      assert sp + text == text;
    } else {
      assert sp[0] in sp && (sp + text)[1..] == sp[1..] + text;
      TrimLeftHead(text, sp[1..]);
    }
  }

  lemma TrimHead(text: string, sp: string)
    requires Trimmed(text) && Blank(sp)
    ensures TrimSpace(sp + text) == text
  {
    TrimLeftHead(text, sp);
    TrimSpaceTrims(text);
  }

  // ---- Assignments ----

  function ReadKey(key: string): string {
    if Auto(key) then "-" else key
  }

  /** A written key is read back, whatever blanks follow it, before either sign. */
  lemma KeyRoundTrip(key: string, sp: string, c: string, right: string)
    requires (KeyOk(key) || Auto(key)) && Blank(sp) && (c == "=" || c == ":")
    ensures ParseKey(KeyText(key) + sp + c + right) == Some(Keyed(ReadKey(key), |KeyText(key)| + |sp|))
  {
    if Auto(key) {
      AutoText(key);
      BareKey("-", sp, c, right);
    } else if HasSeparator(key) {
      QuotedKey(key, sp, c, right);
    } else {
      PlainText(key);
      BareKey(key, sp, c, right);
    }
  }

  lemma PlainText(key: string)
    requires KeyOk(key) && !HasSeparator(key)
    ensures KeyText(key) == key
  {
    KeyTextIs(key);
  }

  /** No key is taken for a comment or a section. */
  lemma KeyTextStarts(key: string)
    requires KeyOk(key) || Auto(key)
    ensures KeyText(key) != "" && Trimmed(KeyText(key)) && KeyText(key)[0] !in {'#', ';', '['}
  {
    if Auto(key) {
      AutoText(key);
    } else {
      KeyTextIs(key);
      if !HasSeparator(key) { PlainText(key); }
    }
  }

  lemma TrimAround(lead: string, line: string, trail: string)
    requires line != "" && Trimmed(line) && Blank(lead) && Blank(trail)
    ensures TrimSpace(lead + (line + trail)) == line
  {
    TrimLeftHead(line + trail, lead);
    assert (line + trail)[0] == line[0];
    TrimRightTail(line, trail);
  }

  /** What follows the sign in the trimmed line. */
  function Right(after: string, text: string): string {
    if text == "" then "" else after + text
  }

  lemma TrimmedLine(lead: string, k: string, after: string, text: string, trail: string)
    requires Trimmed(k) && k != "" && Trimmed(text) && Blank(lead) && Blank(after) && Blank(trail)
    ensures TrimSpace(lead + (k + after + text) + trail) == k + Right(after, text)
  {
    var line := k + Right(after, text);
    assert line[0] == k[0];
    if text == "" {
      assert line == k;
      assert lead + (k + after + text) + trail == lead + (line + (after + trail));
      TrimAround(lead, line, after + trail);
    } else {
      assert line == k + after + text && line[|line| - 1] == text[|text| - 1];
      assert lead + (k + after + text) + trail == lead + (line + trail);
      TrimAround(lead, line, trail);
    }
  }

  /** A written assignment is read: a key in any quoting style, either sign, blanks wherever they may stand, and
      a text that reads as the value. */
  lemma WrittenAssignment(
      lead: string, key: string, before: string, c: string, after: string, text: string, value: string, trail: string)
    requires KeyOk(key) || Auto(key)
    requires Blank(lead) && Blank(before) && Blank(after) && Blank(trail) && (c == "=" || c == ":")
    requires Trimmed(text) && ParseValue(text) == Some(value)
    ensures var line := TrimSpace(lead + (KeyText(key) + before + c + after + text) + trail);
            && line != "" && line[0] !in {'#', ';', '['}
            && ParseAssignment(line) == Some(Parsed(ReadKey(key), value))
  {
    var k, right := KeyText(key), Right(after, text);
    KeyTextStarts(key);
    StartsTrimmed(k, before, c);
    TrimmedLine(lead, k + before + c, after, text, trail);
    RightIs(after, text);
    ReadsBack(key, k, before, c, right, text, value);
  }

  lemma ReadsBack(key: string, k: string, sp: string, c: string, right: string, text: string, value: string)
    requires (KeyOk(key) || Auto(key)) && k == KeyText(key) && k != "" && Blank(sp) && (c == "=" || c == ":")
    requires TrimSpace(right) == text && ParseValue(text) == Some(value)
    ensures var line := k + sp + c + right;
            line != "" && line[0] == k[0] && ParseAssignment(line) == Some(Parsed(ReadKey(key), value))
  {
    KeyRoundTrip(key, sp, c, right);
    BehindSign(k, sp, c, right);
    ParseAssignmentIs(k + sp + c + right, Keyed(ReadKey(key), |k| + |sp|), right, text, value);
  }

  lemma StartsTrimmed(k: string, sp: string, c: string)
    requires k != "" && Trimmed(k) && Sign(c)
    ensures k + sp + c != "" && Trimmed(k + sp + c)
  {
    var start := k + sp + c;
    assert start[0] == k[0] && start[|start| - 1] == c[0];
  }

  lemma RightIs(after: string, text: string)
    requires Trimmed(text) && Blank(after)
    ensures TrimSpace(Right(after, text)) == text
  {
    if text != "" { TrimHead(text, after); }
  }

  /** An assignment line is read back as the key and the value it was printed from. */
  lemma AssignmentRoundTrip(key: string, value: string, pretty: bool)
    requires (KeyOk(key) || Auto(key)) && ValueOk(value)
    ensures var line := TrimSpace(Assignment(key, value, pretty));
            && line != "" && line[0] !in {'#', ';', '['}
            && ParseAssignment(line) == Some(Parsed(ReadKey(key), value))
  {
    var v, sp := ValueText(value), if pretty then " " else "";
    ValueTextTrimmed(value);
    TrimSpaceTrims(v);
    ValueRoundTrip(value);
    WrittenAssignment("", key, sp, "=", sp, v, value, "");
    PrintedIsWritten(KeyText(key), v, pretty);
  }

  lemma PrintedIsWritten(k: string, v: string, pretty: bool)
    ensures var sp := if pretty then " " else ""; "" + (k + sp + "=" + sp + v) + "" == k + EqualSign(pretty) + v
  {
  }

  // ---- Assignments written by hand ----

  /** A value can be written in backticks or triple double quotes, or else as it stands if it is trimmed and does
      not begin like a quoted one. */
  predicate CanStand(value: string, q: Quoting) {
    match q
    case Plain => Trimmed(value) && (value == "" || value[0] != '`') && (|value| < 3 || value[..3] != TRIPLE)
    case Double => false
    case _ => true
  }

  function Quoted(value: string, q: Quoting): string {
    Mark(q) + value + Mark(q)
  }

  /** What is written comes back, whatever signs, quotes and blanks it holds. */
  lemma WrittenValue(value: string, q: Quoting)
    requires CanStand(value, q)
    ensures Trimmed(Quoted(value, q)) && ParseValue(Quoted(value, q)) == Some(value)
  {
    match q
    case Plain =>
      assert Quoted(value, q) == value;
      TrimSpaceTrims(value);
    case Backtick => BacktickValue(value);
    case Triple => TripleValue(value);
  }

  lemma BacktickValue(value: string)
    ensures ParseValue("`" + value + "`") == Some(value)
  {
    var text := "`" + value + "`";
    assert text[1..] == value + "`";
    assert At(text[1..], "`", |value|);
    LastIndexIsLast(text[1..], "`", |value|);
    assert text[1..][..|value|] == value;
  }

  /** A line with a bare key and a bare value, with either sign: all behind the first sign is the value,
      as in "port:8080" or "server: 127.0.0.1:9000". */
  lemma BareLine(key: string, before: string, c: char, after: string, value: string)
    requires key != "" && Trimmed(key) && key[0] !in {'#', ';', '[', '"', '`'} && key != "-"
    requires '=' !in key && ':' !in key && (c == '=' || c == ':') && Blank(before) && Blank(after)
    requires Trimmed(value) && (value == "" || value[0] !in {'`', '"'})
    ensures var line := TrimSpace(key + before + [c] + after + value);
            line != "" && ParseAssignment(line) == Some(Parsed(key, value))
  {
    PlainText(key);
    WrittenValue(value, Plain);
    assert Quoted(value, Plain) == value;
    assert key + before + [c] + after + value == "" + (key + before + [c] + after + value) + "";
    WrittenAssignment("", key, before, [c], after, value, value, "");
  }

  /** A line without a sign, or with one at its very start, is no assignment. */
  lemma NoAssignment(line: string)
    requires line != "" && line[0] !in {'"', '`'}
    requires line[0] in {'=', ':'} || ('=' !in line && ':' !in line)
    ensures ParseAssignment(line) == None
  {
    if line[0] in {'=', ':'} {
      SeparatorAt(line, 0);
    } else {
      NoSign(line);
    }
  }

  lemma {:induction false} NoSign(line: string)
    requires '=' !in line && ':' !in line
    ensures IndexSeparator(line) == -1
  {
    if line != "" {
      assert line[0] in line;
      NoSign(line[1..]);
    }
  }

  lemma ParseAssignmentIs(line: string, k: Keyed, right: string, text: string, value: string)
    requires line != "" && ParseKey(line) == Some(k) && line[k.separator + 1..] == right
    requires TrimSpace(right) == text && ParseValue(text) == Some(value)
    ensures ParseAssignment(line) == Some(Parsed(k.key, value))
  {
  }

  lemma BehindSign(k: string, sp: string, c: string, right: string)
    requires |c| == 1
    ensures (k + sp + c + right)[|k| + |sp| + 1..] == right
    ensures k != "" ==> (k + sp + c + right)[0] == k[0]
  {
  }

  lemma ValueTextTrimmed(value: string)
    requires ValueOk(value)
    ensures Trimmed(ValueText(value))
  {
    ContainsChar(value, '`');
    ContainsChar(value, '"');
  }
}
