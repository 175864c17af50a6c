/** Printing a configuration, reading one, and why the two agree. */
module ConfigTexts {
  import opened GoStrings
  import opened ConfigStores
  import opened ConfigLines
  import opened Wrappers

  // ---- What a configuration shows ----

  datatype Entry = Entry(key: string, value: string, comments: string)

  datatype Section = Section(name: string, comments: string, entries: seq<Entry>)

  function Entries(c: Config, section: string, keys: seq<string>): seq<Entry> {
    if keys == [] then []
    else if keys[0] == " " then Entries(c, section, keys[1..])
    else [Entry(keys[0], Get(c, section, keys[0]), KeyComments(c, section, keys[0]))] + Entries(c, section, keys[1..])
  }

  function Shown(c: Config, section: string): Section {
    Section(section, SectionComments(c, section), Entries(c, section, KeysOf(c, section)))
  }

  function Sections(c: Config, names: seq<string>): seq<Section> {
    if names == [] then [] else [Shown(c, names[0])] + Sections(c, names[1..])
  }

  /** Sections, keys, values and comments in order, without the keeper keys. */
  function Outline(c: Config): seq<Section> {
    Sections(c, c.sections)
  }

  // ---- Printing ----

  function CommentText(comments: string): string {
    if comments == "" then "" else comments + "\n"
  }

  function EntryText(e: Entry, pretty: bool): string
    requires e.key != ""
  {
    CommentText(e.comments) + (Assignment(e.key, e.value, pretty) + "\n")
  }

  function EntriesText(entries: seq<Entry>, pretty: bool): string
    requires forall e :: e in entries ==> e.key != ""
  {
    if entries == [] then "" else EntryText(entries[0], pretty) + EntriesText(entries[1..], pretty)
  }

  function HeaderText(name: string): string {
    if name == DEFAULT_SECTION then "" else "[" + name + "]\n"
  }

  predicate Named(s: Section) {
    forall e :: e in s.entries ==> e.key != ""
  }

  function SectionText(s: Section, pretty: bool): string
    requires Named(s)
  {
    CommentText(s.comments) + (HeaderText(s.name) + (EntriesText(s.entries, pretty) + "\n"))
  }

  function Text(outline: seq<Section>, pretty: bool): string
    requires forall s :: s in outline ==> Named(s)
  {
    if outline == [] then "" else SectionText(outline[0], pretty) + Text(outline[1..], pretty)
  }

  // ---- Reading ----

  datatype ReadError = BlankSection(line: string) | CouldNotParse(line: string)

  datatype Reader = Reader(config: Config, section: string, comments: string, count: nat)

  datatype Outcome = Outcome(reader: Reader, error: Option<ReadError>)

  function Joined(comments: string, line: string): string {
    if comments == "" then line else comments + "\n" + line
  }

  function WithSection(r: Reader, name: string): Reader {
    var c := if r.comments == "" then r.config else WithSectionComments(r.config, name, r.comments).1;
    Reader(WithValue(c, name, " ", " ").1, name, "", 1)
  }

  /** The dash counts up the automatic keys of the section. */
  function KeyName(r: Reader, key: string): string {
    if key == "-" then "#" + Decimal(r.count) else key
  }

  function WithEntry(r: Reader, key: string, value: string): Reader {
    var c := WithValue(r.config, r.section, KeyName(r, key), value).1;
    var d := if r.comments == "" then c else WithKeyComments(c, r.section, KeyName(r, key), r.comments).1;
    Reader(d, r.section, "", r.count + if key == "-" then 1 else 0)
  }

  predicate IsHeader(line: string) {
    line != "" && line[0] == '[' && line[|line| - 1] == ']'
  }

  function HeaderName(line: string): string
    requires IsHeader(line)
  {
    TrimSpace(line[1..|line| - 1])
  }

  /** One trimmed line. */
  function ReadLine(r: Reader, line: string): Outcome {
    if line == "" then Outcome(r, None)
    else if line[0] == '#' || line[0] == ';' then Outcome(r.(comments := Joined(r.comments, line)), None)
    else if IsHeader(line) then Outcome(WithSection(r, HeaderName(line)), None)
    else if r.section == "" then Outcome(r, Some(BlankSection(line)))
    else
      match ParseAssignment(line)
      case None => Outcome(r, Some(CouldNotParse(line)))
      case Some(p) => Outcome(WithEntry(r, p.key, p.value), None)
  }

  function LineEnd(text: string): (i: nat)
    ensures i <= |text|
    ensures i < |text| ==> text[i] == '\n'
  {
    if text == "" || text[0] == '\n' then 0 else 1 + LineEnd(text[1..])
  }

  function ReadFrom(r: Reader, text: string): Outcome
    decreases |text|
  {
    var i := LineEnd(text);
    var step := ReadLine(r, TrimSpace(text[..i]));
    if step.error.Some? || i == |text| then step else ReadFrom(step.reader, text[i + 1..])
  }

  const START := Reader(EMPTY, DEFAULT_SECTION, "", 1)

  const BOM := '\U{feff}'

  /** A byte order mark in front is skipped. */
  function Read(text: string): Outcome {
    ReadFrom(START, if text != "" && text[0] == BOM then text[1..] else text)
  }

  // ---- The printable domain ----

  predicate OneLine(s: string) {
    '\n' !in s
  }

  predicate CommentLine(line: string) {
    line != "" && Trimmed(line) && (line[0] == '#' || line[0] == ';')
  }

  predicate CommentLines(comments: string)
    decreases |comments|
  {
    var i := LineEnd(comments);
    CommentLine(comments[..i]) && (i == |comments| || CommentLines(comments[i + 1..]))
  }

  predicate Commented(comments: string) {
    comments == "" || CommentLines(comments)
  }

  /** The count is that of the next automatic key. */
  predicate EntryWritable(e: Entry, count: nat) {
    && e.key != " " && OneLine(e.key) && OneLine(e.value) && Commented(e.comments)
    && if Auto(e.key) then e.key == "#" + Decimal(count) else KeyOk(e.key)
  }

  predicate EntryPrintable(e: Entry, count: nat) {
    EntryWritable(e, count) && ValueOk(e.value)
  }

  function NextCount(count: nat, key: string): nat {
    if Auto(key) then count + 1 else count
  }

  predicate EntriesWritable(entries: seq<Entry>, count: nat) {
    entries == [] || (EntryWritable(entries[0], count)
        && EntriesWritable(entries[1..], NextCount(count, entries[0].key)))
  }

  predicate EntriesPrintable(entries: seq<Entry>, count: nat) {
    EntriesWritable(entries, count) && forall i :: 0 <= i < |entries| ==> ValueOk(entries[i].value)
  }

  function Keys(entries: seq<Entry>): seq<string> {
    if entries == [] then [] else [entries[0].key] + Keys(entries[1..])
  }

  function Names(outline: seq<Section>): seq<string> {
    if outline == [] then [] else [outline[0].name] + Names(outline[1..])
  }

  ghost predicate SectionWritable(s: Section) {
    && s.name != "" && Trimmed(s.name) && OneLine(s.name) && Commented(s.comments)
    && EntriesWritable(s.entries, 1) && Distinct(Keys(s.entries))
  }

  ghost predicate SectionPrintable(s: Section) {
    SectionWritable(s) && EntriesPrintable(s.entries, 1)
  }

  /** The default section, if any, comes first, has a key, and no comments of its own. */
  ghost predicate Arranged(outline: seq<Section>) {
    && Distinct(Names(outline))
    && (forall i :: 0 <= i < |outline| && outline[i].name == DEFAULT_SECTION ==>
          i == 0 && outline[i].comments == "" && outline[i].entries != [])
  }

  ghost predicate Printable(outline: seq<Section>) {
    Arranged(outline) && forall i :: 0 <= i < |outline| ==> SectionPrintable(outline[i])
  }

  // ---- Line by line ----

  lemma {:induction false} LineEndIs(line: string, rest: string)
    requires OneLine(line)
    ensures LineEnd(line + ("\n" + rest)) == |line|
  {
    if line != "" {
      assert (line + ("\n" + rest))[1..] == line[1..] + ("\n" + rest);
      LineEndIs(line[1..], rest);
    }
  }

  lemma ReadOneLine(r: Reader, line: string, rest: string)
    requires OneLine(line) && ReadLine(r, TrimSpace(line)).error == None
    ensures ReadFrom(r, line + ("\n" + rest)) == ReadFrom(ReadLine(r, TrimSpace(line)).reader, rest)
  {
    LineEndIs(line, rest);
    var text := line + ("\n" + rest);
    assert text[..|line|] == line && text[|line| + 1..] == rest;
  }

  lemma ReadBlank(r: Reader, rest: string)
    ensures ReadFrom(r, "\n" + rest) == ReadFrom(r, rest)
  {
    ReadOneLine(r, "", rest);
    assert "" + ("\n" + rest) == "\n" + rest;
  }

  lemma LineEndOneLine(s: string)
    ensures OneLine(s[..LineEnd(s)])
  {
    if s != "" && s[0] != '\n' {
      LineEndOneLine(s[1..]);
      assert s[..LineEnd(s)] == [s[0]] + s[1..][..LineEnd(s) - 1];
    }
  }

  lemma {:induction false} ReadComments(r: Reader, comments: string, rest: string)
    requires CommentLines(comments)
    ensures ReadFrom(r, comments + ("\n" + rest)) == ReadFrom(r.(comments := Joined(r.comments, comments)), rest)
    decreases |comments|
  {
    var i := LineEnd(comments);
    var line := comments[..i];
    LineEndOneLine(comments);
    TrimSpaceTrims(line);
    if i == |comments| {
      assert line == comments;
      ReadOneLine(r, line, rest);
    } else {
      var tail := comments[i + 1..];
      FirstLine(comments);
      SplitLine(line, tail, rest, r.comments);
      ReadOneLine(r, line, tail + ("\n" + rest));
      ReadComments(r.(comments := Joined(r.comments, line)), tail, rest);
    }
  }

  lemma FirstLine(comments: string)
    ensures var i := LineEnd(comments); i < |comments| ==> comments == comments[..i] + "\n" + comments[i + 1..]
  {
  }

  lemma SplitLine(line: string, tail: string, rest: string, before: string)
    requires line != ""
    ensures line + "\n" + tail + ("\n" + rest) == line + ("\n" + (tail + ("\n" + rest)))
    ensures Joined(Joined(before, line), tail) == Joined(before, line + "\n" + tail)
  {
    if before != "" {
      assert before + "\n" + line + "\n" + tail == before + "\n" + (line + "\n" + tail);
    }
  }

  lemma ReadCommentText(r: Reader, comments: string, rest: string)
    requires r.comments == "" && Commented(comments)
    ensures ReadFrom(r, CommentText(comments) + rest) == ReadFrom(r.(comments := comments), rest)
  {
    if comments == "" {
      assert CommentText(comments) + rest == rest;
    } else {
      assert CommentText(comments) + rest == comments + ("\n" + rest);
      ReadComments(r, comments, rest);
    }
  }

  function AfterEntry(r: Reader, e: Entry): Reader {
    WithEntry(r.(comments := e.comments), ReadKey(e.key), e.value)
  }

  lemma AssignmentOneLine(key: string, value: string, pretty: bool)
    requires key != "" && OneLine(key) && OneLine(value)
    ensures OneLine(Assignment(key, value, pretty))
  {
    assert OneLine(TRIPLE) && OneLine("\"") && OneLine("`") && OneLine("-");
    assert OneLine(KeyText(key)) && OneLine(ValueText(value)) && OneLine(EqualSign(pretty));
  }

  lemma ReadEntry(r: Reader, e: Entry, pretty: bool, rest: string)
    requires r.comments == "" && r.section != "" && e.key != "" && EntryPrintable(e, r.count)
    ensures ReadFrom(r, EntryText(e, pretty) + rest) == ReadFrom(AfterEntry(r, e), rest)
  {
    var line := Assignment(e.key, e.value, pretty);
    var q := r.(comments := e.comments);
    EntryRegroup(e, pretty, rest);
    ReadCommentText(r, e.comments, line + ("\n" + rest));
    AssignmentOneLine(e.key, e.value, pretty);
    AssignmentRoundTrip(e.key, e.value, pretty);
    assert ReadLine(q, TrimSpace(line)) == Outcome(AfterEntry(r, e), None);
    ReadOneLine(q, line, rest);
  }

  lemma EntryRegroup(e: Entry, pretty: bool, rest: string)
    requires e.key != ""
    ensures EntryText(e, pretty) + rest
            == CommentText(e.comments) + (Assignment(e.key, e.value, pretty) + ("\n" + rest))
  {
  }

  function AfterEntries(r: Reader, entries: seq<Entry>): Reader
    decreases |entries|
  {
    if entries == [] then r else AfterEntries(AfterEntry(r, entries[0]), entries[1..])
  }

  lemma AfterEntryIs(r: Reader, e: Entry)
    requires EntryWritable(e, r.count)
    ensures var q := AfterEntry(r, e);
            q.comments == "" && q.section == r.section && q.count == NextCount(r.count, e.key)
            && KeyName(r, ReadKey(e.key)) == e.key
  {
  }

  lemma {:induction false} ReadEntries(r: Reader, entries: seq<Entry>, pretty: bool, rest: string)
    requires r.comments == "" && r.section != "" && EntriesPrintable(entries, r.count)
    requires forall e :: e in entries ==> e.key != ""
    ensures ReadFrom(r, EntriesText(entries, pretty) + rest) == ReadFrom(AfterEntries(r, entries), rest)
    ensures AfterEntries(r, entries).comments == "" && AfterEntries(r, entries).section == r.section
    decreases |entries|
  {
    if entries == [] {
      assert EntriesText(entries, pretty) + rest == rest;
    } else {
      var tail := EntriesText(entries[1..], pretty) + rest;
      EntriesRegroup(entries, pretty, rest);
      ReadEntry(r, entries[0], pretty, tail);
      AfterEntryIs(r, entries[0]);
      ReadEntries(AfterEntry(r, entries[0]), entries[1..], pretty, rest);
    }
  }

  lemma EntriesRegroup(entries: seq<Entry>, pretty: bool, rest: string)
    requires entries != [] && forall e :: e in entries ==> e.key != ""
    ensures EntriesText(entries, pretty) + rest
            == EntryText(entries[0], pretty) + (EntriesText(entries[1..], pretty) + rest)
  {
  }

  lemma ReadHeader(r: Reader, name: string, rest: string)
    requires name != "" && Trimmed(name) && OneLine(name) && name != DEFAULT_SECTION
    ensures ReadFrom(r, HeaderText(name) + rest) == ReadFrom(WithSection(r, name), rest)
  {
    var line := "[" + name + "]";
    TrimSpaceTrims(line);
    TrimSpaceTrims(name);
    assert line[1..|line| - 1] == name;
    assert OneLine("[") && OneLine("]");
    assert HeaderText(name) + rest == line + ("\n" + rest);
    ReadOneLine(r, line, rest);
  }

  /** What reading a section's text does to the configuration read so far. */
  function AfterSection(r: Reader, s: Section): Reader {
    var q := if s.name == DEFAULT_SECTION then r else WithSection(r.(comments := s.comments), s.name);
    AfterEntries(q, s.entries)
  }

  ghost predicate Ready(r: Reader, s: Section) {
    r.comments == "" && r.section != "" && (s.name == DEFAULT_SECTION ==> s.comments == "" && r.count == 1)
  }

  lemma NamedWritable(entries: seq<Entry>, count: nat)
    requires EntriesWritable(entries, count)
    ensures forall e :: e in entries ==> e.key != ""
  {
    if entries != [] {
      NamedWritable(entries[1..], NextCount(count, entries[0].key));
      assert entries == [entries[0]] + entries[1..];
    }
  }

  lemma {:induction false} ReadSection(r: Reader, s: Section, pretty: bool, rest: string)
    requires Ready(r, s) && SectionPrintable(s) && Named(s)
    ensures ReadFrom(r, SectionText(s, pretty) + rest) == ReadFrom(AfterSection(r, s), rest)
    ensures AfterSection(r, s).comments == "" && AfterSection(r, s).section != ""
  {
    var body := EntriesText(s.entries, pretty);
    var tail := body + ("\n" + rest);
    SectionRegroup(s, pretty, rest);
    ReadCommentText(r, s.comments, HeaderText(s.name) + tail);
    var q := r.(comments := s.comments);
    if s.name == DEFAULT_SECTION {
      assert HeaderText(s.name) + tail == tail;
      ReadBody(r, s, pretty, rest);
    } else {
      ReadHeader(q, s.name, tail);
      ReadBody(WithSection(q, s.name), s, pretty, rest);
    }
  }

  lemma {:induction false} ReadBody(q: Reader, s: Section, pretty: bool, rest: string)
    requires q.comments == "" && q.section != "" && q.count == 1 && SectionPrintable(s) && Named(s)
    ensures ReadFrom(q, EntriesText(s.entries, pretty) + ("\n" + rest)) == ReadFrom(AfterEntries(q, s.entries), rest)
    ensures AfterEntries(q, s.entries).comments == "" && AfterEntries(q, s.entries).section == q.section
  {
    ReadEntries(q, s.entries, pretty, "\n" + rest);
    ReadBlank(AfterEntries(q, s.entries), rest);
  }

  lemma SectionRegroup(s: Section, pretty: bool, rest: string)
    requires Named(s)
    ensures SectionText(s, pretty) + rest
            == CommentText(s.comments) + (HeaderText(s.name) + (EntriesText(s.entries, pretty) + ("\n" + rest)))
  {
  }

  function AfterAll(r: Reader, outline: seq<Section>): Reader
    decreases |outline|
  {
    if outline == [] then r else AfterAll(AfterSection(r, outline[0]), outline[1..])
  }

  lemma {:induction false} ReadAll(r: Reader, outline: seq<Section>, pretty: bool)
    requires r.comments == "" && r.section != ""
    requires forall s :: s in outline ==> SectionPrintable(s) && Named(s)
    requires forall i :: 0 <= i < |outline| && outline[i].name == DEFAULT_SECTION ==>
               i == 0 && outline[i].comments == "" && r.count == 1
    ensures ReadFrom(r, Text(outline, pretty)) == Outcome(AfterAll(r, outline), None)
    decreases |outline|
  {
    if outline != [] {
      ReadSection(r, outline[0], pretty, Text(outline[1..], pretty));
      ReadAll(AfterSection(r, outline[0]), outline[1..], pretty);
    }
  }
}
