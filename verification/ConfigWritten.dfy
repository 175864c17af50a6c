/** A configuration written by hand: either sign, blanks and blank lines as one likes, values quoted or not. */
module ConfigWritings {
  import opened GoStrings
  import opened ConfigStores
  import opened ConfigLines
  import opened ConfigTexts
  import opened ConfigRoundTrips
  import opened Wrappers

  /** An entry, with the sign, the quotes of the value and the blanks chosen for it. */
  datatype Line =
    Line(entry: Entry, lead: string, before: string, sign: char, after: string, quote: Quoting, trail: string)

  /** A section, with the number of blank lines behind it. */
  datatype Part = Part(name: string, comments: string, lines: seq<Line>, gap: nat)

  function LineText(l: Line): string
    requires l.entry.key != ""
  {
    l.lead + (KeyText(l.entry.key) + l.before + [l.sign] + l.after + Quoted(l.entry.value, l.quote)) + l.trail
  }

  function LinesText(lines: seq<Line>): string
    requires forall l :: l in lines ==> l.entry.key != ""
  {
    if lines == [] then ""
    else CommentText(lines[0].entry.comments) + (LineText(lines[0]) + ("\n" + LinesText(lines[1..])))
  }

  function Gap(n: nat): string {
    if n == 0 then "" else "\n" + Gap(n - 1)
  }

  predicate AllNamed(p: Part) {
    forall l :: l in p.lines ==> l.entry.key != ""
  }

  function PartText(p: Part): string
    requires AllNamed(p)
  {
    CommentText(p.comments) + (HeaderText(p.name) + (LinesText(p.lines) + Gap(p.gap)))
  }

  function FileText(parts: seq<Part>): string
    requires forall p :: p in parts ==> AllNamed(p)
  {
    if parts == [] then "" else PartText(parts[0]) + FileText(parts[1..])
  }

  // ---- What is written ----

  function EntriesOf(lines: seq<Line>): seq<Entry> {
    if lines == [] then [] else [lines[0].entry] + EntriesOf(lines[1..])
  }

  function SectionOf(p: Part): Section {
    Section(p.name, p.comments, EntriesOf(p.lines))
  }

  function SectionsOf(parts: seq<Part>): seq<Section> {
    if parts == [] then [] else [SectionOf(parts[0])] + SectionsOf(parts[1..])
  }

  predicate BlankInLine(sp: string) {
    Blank(sp) && OneLine(sp)
  }

  predicate LineOk(l: Line) {
    && BlankInLine(l.lead) && BlankInLine(l.before) && BlankInLine(l.after) && BlankInLine(l.trail)
    && (l.sign == '=' || l.sign == ':') && CanStand(l.entry.value, l.quote)
  }

  ghost predicate PartOk(p: Part) {
    SectionWritable(SectionOf(p)) && forall l :: l in p.lines ==> LineOk(l)
  }

  /** The lines and sections of a file are in order. */
  ghost predicate FileOk(parts: seq<Part>) {
    Arranged(SectionsOf(parts)) && forall p :: p in parts ==> PartOk(p) && AllNamed(p)
  }

  // ---- Reading it ----

  lemma LineIsOne(l: Line)
    requires l.entry.key != "" && OneLine(l.entry.key) && OneLine(l.entry.value) && LineOk(l)
    ensures OneLine(LineText(l))
  {
    assert OneLine(TRIPLE) && OneLine("\"") && OneLine("`") && OneLine("-") && OneLine("");
    assert OneLine(KeyText(l.entry.key)) && OneLine(Quoted(l.entry.value, l.quote)) && OneLine([l.sign]);
  }

  lemma ReadWrittenLine(r: Reader, l: Line, rest: string)
    requires r.section != "" && l.entry.key != "" && EntryWritable(l.entry, r.count) && LineOk(l)
    requires r.comments == l.entry.comments
    ensures ReadFrom(r, LineText(l) + ("\n" + rest)) == ReadFrom(AfterEntry(r, l.entry), rest)
  {
    var e := l.entry;
    WrittenValue(e.value, l.quote);
    WrittenAssignment(l.lead, e.key, l.before, [l.sign], l.after, Quoted(e.value, l.quote), e.value, l.trail);
    LineIsOne(l);
    assert ReadLine(r, TrimSpace(LineText(l))) == Outcome(AfterEntry(r, e), None);
    ReadOneLine(r, LineText(l), rest);
  }

  lemma {:induction false} ReadLines(r: Reader, lines: seq<Line>, rest: string)
    requires r.comments == "" && r.section != "" && EntriesWritable(EntriesOf(lines), r.count)
    requires forall l :: l in lines ==> LineOk(l) && l.entry.key != ""
    ensures ReadFrom(r, LinesText(lines) + rest) == ReadFrom(AfterEntries(r, EntriesOf(lines)), rest)
    ensures var q := AfterEntries(r, EntriesOf(lines)); q.comments == "" && q.section == r.section
    decreases |lines|
  {
    if lines == [] {
      assert LinesText(lines) + rest == rest;
    } else {
      var e := lines[0].entry;
      LinesRegroup(lines, rest);
      ReadCommentText(r, e.comments, LineText(lines[0]) + ("\n" + (LinesText(lines[1..]) + rest)));
      ReadWrittenLine(r.(comments := e.comments), lines[0], LinesText(lines[1..]) + rest);
      AfterEntryIs(r, e);
      FirstEntry(lines);
      ReadLines(AfterEntry(r, e), lines[1..], rest);
    }
  }

  lemma FirstEntry(lines: seq<Line>)
    requires lines != []
    ensures EntriesOf(lines) != [] && EntriesOf(lines)[0] == lines[0].entry
    ensures EntriesOf(lines)[1..] == EntriesOf(lines[1..])
  {
  }

  lemma LinesRegroup(lines: seq<Line>, rest: string)
    requires lines != [] && forall l :: l in lines ==> l.entry.key != ""
    ensures LinesText(lines) + rest
            == CommentText(lines[0].entry.comments) + (LineText(lines[0]) + ("\n" + (LinesText(lines[1..]) + rest)))
  {
    Regroup3(CommentText(lines[0].entry.comments), LineText(lines[0]), LinesText(lines[1..]), rest);
  }

  lemma Regroup3(a: string, b: string, c: string, d: string)
    ensures a + (b + ("\n" + c)) + d == a + (b + ("\n" + (c + d)))
  {
  }

  lemma {:induction false} ReadGap(r: Reader, n: nat, rest: string)
    ensures ReadFrom(r, Gap(n) + rest) == ReadFrom(r, rest)
  {
    if n == 0 {
      assert Gap(n) + rest == rest;
    } else {
      assert Gap(n) + rest == "\n" + (Gap(n - 1) + rest);
      ReadBlank(r, Gap(n - 1) + rest);
      ReadGap(r, n - 1, rest);
    }
  }

  lemma ReadPart(r: Reader, p: Part, rest: string)
    requires Ready(r, SectionOf(p)) && PartOk(p) && AllNamed(p)
    ensures ReadFrom(r, PartText(p) + rest) == ReadFrom(AfterSection(r, SectionOf(p)), rest)
    ensures AfterSection(r, SectionOf(p)).comments == "" && AfterSection(r, SectionOf(p)).section != ""
  {
    var tail := LinesText(p.lines) + (Gap(p.gap) + rest);
    PartRegroup(p, rest);
    ReadCommentText(r, p.comments, HeaderText(p.name) + tail);
    var q := r.(comments := p.comments);
    if p.name == DEFAULT_SECTION {
      assert HeaderText(p.name) + tail == tail;
      ReadPartBody(r, p, rest);
    } else {
      ReadHeader(q, p.name, tail);
      ReadPartBody(WithSection(q, p.name), p, rest);
    }
  }

  lemma PartRegroup(p: Part, rest: string)
    requires AllNamed(p)
    ensures PartText(p) + rest
            == CommentText(p.comments) + (HeaderText(p.name) + (LinesText(p.lines) + (Gap(p.gap) + rest)))
  {
  }

  lemma ReadPartBody(q: Reader, p: Part, rest: string)
    requires q.comments == "" && q.section != "" && q.count == 1 && PartOk(p) && AllNamed(p)
    ensures ReadFrom(q, LinesText(p.lines) + (Gap(p.gap) + rest))
            == ReadFrom(AfterEntries(q, EntriesOf(p.lines)), rest)
    ensures var a := AfterEntries(q, EntriesOf(p.lines)); a.comments == "" && a.section == q.section
  {
    ReadLines(q, p.lines, Gap(p.gap) + rest);
    ReadGap(AfterEntries(q, EntriesOf(p.lines)), p.gap, rest);
  }

  lemma {:induction false} ReadFile(r: Reader, parts: seq<Part>, rest: string)
    requires r.comments == "" && r.section != "" && DefaultFirst(SectionsOf(parts), r == START)
    requires forall p :: p in parts ==> PartOk(p) && AllNamed(p)
    ensures ReadFrom(r, FileText(parts) + rest) == ReadFrom(AfterAll(r, SectionsOf(parts)), rest)
    ensures AfterAll(r, SectionsOf(parts)).section != ""
    decreases |parts|
  {
    if parts == [] {
      assert FileText(parts) + rest == rest;
    } else {
      var s := SectionOf(parts[0]);
      var q := AfterSection(r, s);
      assert SectionsOf(parts)[0] == s && SectionsOf(parts)[1..] == SectionsOf(parts[1..]);
      Regrouped(PartText(parts[0]), FileText(parts[1..]), rest);
      ReadPart(r, parts[0], FileText(parts[1..]) + rest);
      NoLaterDefault(SectionsOf(parts), r == START, q == START);
      ReadFile(q, parts[1..], rest);
    }
  }

  lemma {:induction false} PartsWritable(parts: seq<Part>)
    requires forall p :: p in parts ==> PartOk(p)
    ensures forall s :: s in SectionsOf(parts) ==> SectionWritable(s)
  {
    if parts != [] {
      assert PartOk(parts[0]);
      PartsWritable(parts[1..]);
    }
  }

  /** A file shows what was written, and is read on from there. */
  lemma {:induction false} ReadWritten(parts: seq<Part>, rest: string)
    requires FileOk(parts)
    requires var text := FileText(parts) + rest; text == "" || text[0] != BOM
    ensures var r := AfterAll(START, SectionsOf(parts));
            && Read(FileText(parts) + rest) == ReadFrom(r, rest)
            && r.section != "" && Outline(r.config) == SectionsOf(parts)
  {
    var outline := SectionsOf(parts);
    assert [] + outline == outline;
    assert Finished(START, []) by { assert Outline(EMPTY) == [] && Names([]) == []; }
    PartsWritable(parts);
    ReadFile(START, parts, rest);
    AllBuild(START, [], outline);
  }

  /** Loading a file gives exactly the sections, keys, values and comments written in it. */
  method LoadWritten(ghost parts: seq<Part>, text: string) returns (c: ConfigFile, error: Option<ReadError>)
    requires FileOk(parts) && text == FileText(parts) && (text == "" || text[0] != BOM)
    ensures fresh(c) && error == None && Outline(c.View()) == SectionsOf(parts)
  {
    c, error := LoadFromReader(text);
    assert text + "" == text;
    ReadWritten(parts, "");
  }

  /** A line that is no comment and no header, and has no sign or begins with one, ends the loading there. */
  lemma BadLineStops(parts: seq<Part>, line: string, rest: string)
    requires FileOk(parts) && line != "" && OneLine(line) && Trimmed(line) && line[0] !in {'#', ';', '[', '"', '`'}
    requires line[0] in {'=', ':'} || ('=' !in line && ':' !in line)
    requires (FileText(parts) + (line + ("\n" + rest)))[0] != BOM
    ensures var result := Read(FileText(parts) + (line + ("\n" + rest)));
            result.error == Some(CouldNotParse(line)) && Outline(result.reader.config) == SectionsOf(parts)
  {
    ReadWritten(parts, line + ("\n" + rest));
    TrimSpaceTrims(line);
    NoAssignment(line);
    LineEndIs(line, rest);
    assert (line + ("\n" + rest))[..|line|] == line;
  }

  // ---- Around the lines ----

  /** A byte order mark in front makes no difference. */
  lemma MarkIsSkipped(text: string)
    requires text == "" || text[0] != '\U{feff}'
    ensures Read("\U{feff}" + text) == Read(text)
  {
    assert ("\U{feff}" + text)[1..] == text;
  }

  /** Spaces, tabs and carriage returns around a line make no difference. */
  lemma UsualBlanks(lead: string, line: string, trail: string)
    requires forall c :: c in lead || c in trail ==> c == ' ' || c == '\t' || c == '\r'
    requires line != "" && Trimmed(line)
    ensures TrimSpace(lead + (line + trail)) == line
  {
    TrimAround(lead, line, trail);
  }

  /** The name in a header may have blanks around it. */
  lemma SpacedHeader(r: Reader, lead: string, name: string, trail: string)
    requires Trimmed(name) && name != "" && Blank(lead) && Blank(trail)
    ensures ReadLine(r, "[" + (lead + (name + trail)) + "]") == Outcome(WithSection(r, name), None)
  {
    var line, inner := "[" + (lead + (name + trail)) + "]", lead + (name + trail);
    assert line[1..|line| - 1] == inner;
    TrimAround(lead, name, trail);
  }

  /** Below a header without a name nothing but comments and headers can stand. */
  lemma BlankHeaderStops(r: Reader, line: string, rest: string)
    requires r.comments == "" && line != "" && OneLine(line) && Trimmed(line) && line[0] !in {'#', ';', '['}
    ensures ReadFrom(r, "[]" + ("\n" + (line + ("\n" + rest)))).error == Some(BlankSection(line))
  {
    var q, header := WithSection(r, ""), "[]";
    assert header[1..|header| - 1] == "" && TrimSpace("") == "";
    TrimSpaceTrims(header);
    TrimSpaceTrims(line);
    ReadOneLine(r, header, line + ("\n" + rest));
    LineEndIs(line, rest);
    assert (line + ("\n" + rest))[..|line|] == line;
    assert ReadLine(q, line) == Outcome(q, Some(BlankSection(line)));
  }
}
