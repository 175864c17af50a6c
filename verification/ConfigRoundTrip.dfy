/** Reading what was printed gives back what was shown; and the two programs that do it. */
module ConfigRoundTrips {
  import opened GoStrings
  import opened ConfigStores
  import opened ConfigLines
  import opened ConfigTexts
  import opened Wrappers

  /** No comments are kept for sections or keys that do not exist. */
  ghost predicate Tidy(c: Config) {
    && (forall s :: s in c.sectionComments ==> s in c.data)
    && (forall s, k :: s in c.keyComments && k in c.keyComments[s] ==> s in c.data && k in c.data[s])
  }

  ghost predicate Clean(c: Config) {
    Valid(c) && Tidy(c)
  }

  function AddedSection(c: Config, name: string, comments: string): Config {
    WithValue(if comments == "" then c else WithSectionComments(c, name, comments).1, name, " ", " ").1
  }

  function AddedEntry(c: Config, section: string, e: Entry): Config {
    var d := WithValue(c, section, e.key, e.value).1;
    if e.comments == "" then d else WithKeyComments(d, section, e.key, e.comments).1
  }

  // ---- What is shown, piece by piece ----

  lemma {:induction false} EntriesSame(c: Config, d: Config, section: string, keys: seq<string>)
    requires forall k :: k in keys ==>
               Get(d, section, k) == Get(c, section, k) && KeyComments(d, section, k) == KeyComments(c, section, k)
    ensures Entries(d, section, keys) == Entries(c, section, keys)
  {
    if keys != [] {
      assert keys[0] in keys;
      EntriesSame(c, d, section, keys[1..]);
    }
  }

  lemma {:induction false} EntriesAppend(c: Config, section: string, keys: seq<string>, key: string)
    ensures Entries(c, section, keys + [key])
            == Entries(c, section, keys)
               + if key == " " then [] else [Entry(key, Get(c, section, key), KeyComments(c, section, key))]
  {
    if keys == [] {
      assert (keys + [key])[1..] == [];
    } else {
      assert (keys + [key])[1..] == keys[1..] + [key];
      EntriesAppend(c, section, keys[1..], key);
    }
  }

  lemma {:induction false} SectionsSame(c: Config, d: Config, names: seq<string>)
    requires forall n :: n in names ==> Shown(d, n) == Shown(c, n)
    ensures Sections(d, names) == Sections(c, names)
  {
    if names != [] {
      assert names[0] in names;
      SectionsSame(c, d, names[1..]);
    }
  }

  lemma {:induction false} SectionsAppend(c: Config, names: seq<string>, name: string)
    ensures Sections(c, names + [name]) == Sections(c, names) + [Shown(c, name)]
  {
    if names == [] {
      assert (names + [name])[1..] == [];
    } else {
      assert (names + [name])[1..] == names[1..] + [name];
      SectionsAppend(c, names[1..], name);
    }
  }

  lemma {:induction false} NamesOfSections(c: Config, names: seq<string>)
    ensures Names(Sections(c, names)) == names
  {
    if names != [] { NamesOfSections(c, names[1..]); }
  }

  lemma {:induction false} NamesConcat(a: seq<Section>, b: seq<Section>)
    ensures Names(a + b) == Names(a) + Names(b)
  {
    if a == [] {
      assert a + b == b;
    } else {
      assert (a + b)[1..] == a[1..] + b;
      NamesConcat(a[1..], b);
    }
  }

  lemma {:induction false} KeysConcat(a: seq<Entry>, b: seq<Entry>)
    ensures Keys(a + b) == Keys(a) + Keys(b)
  {
    if a == [] {
      assert a + b == b;
    } else {
      assert (a + b)[1..] == a[1..] + b;
      KeysConcat(a[1..], b);
    }
  }

  lemma {:induction false} ShownKeys(c: Config, section: string, keys: seq<string>, key: string)
    requires key != " "
    ensures key in Keys(Entries(c, section, keys)) <==> key in keys
  {
    if keys != [] { ShownKeys(c, section, keys[1..], key); }
  }

  // ---- What the reader's two operations add to it ----

  lemma SparesOthers(c: Config, section: string, e: Entry, t: string)
    requires section != "" && t != section && t != "" && e.key != ""
    ensures Shown(AddedEntry(c, section, e), t) == Shown(c, t)
  {
    EntriesSame(c, AddedEntry(c, section, e), t, KeysOf(c, t));
  }

  lemma SetKeepsTidy(c: Config, section: string, key: string, value: string)
    requires Tidy(c)
    ensures Tidy(WithValue(c, section, key, value).1)
  {
  }

  lemma CommentKeepsTidy(c: Config, section: string, key: string, comments: string)
    requires Tidy(c) && Has(c, section, key)
    ensures Tidy(WithKeyComments(c, section, key, comments).1)
  {
  }

  lemma {:induction false} AddedEntryClean(c: Config, section: string, e: Entry)
    requires Clean(c) && e.key != ""
    ensures Clean(AddedEntry(c, section, e))
  {
    var d := WithValue(c, section, e.key, e.value).1;
    assert Valid(d) by { SetKeepsValid(c, section, e.key, e.value); }
    assert Tidy(d) by { SetKeepsTidy(c, section, e.key, e.value); }
    if e.comments != "" {
      assert Has(d, section, e.key);
      CommentedClean(d, section, e.key, e.comments);
    }
  }

  lemma CommentedClean(c: Config, section: string, key: string, comments: string)
    requires Clean(c) && Has(c, section, key)
    ensures Clean(WithKeyComments(c, section, key, comments).1)
  {
    KeyCommentsKeepValid(c, section, key, comments);
    CommentKeepsTidy(c, section, key, comments);
  }

  lemma ShowsEntry(c: Config, section: string, e: Entry)
    requires Clean(c) && section != "" && e.key != "" && e.key != " " && !Has(c, section, e.key)
    requires e.comments == "" || CommentOk(e.comments)
    ensures Shown(AddedEntry(c, section, e), section)
            == Shown(c, section).(entries := Shown(c, section).entries + [e])
  {
    var d := AddedEntry(c, section, e);
    var keys := KeysOf(c, section);
    assert section in c.data ==> SectionOk(c, section);
    assert KeysOf(d, section) == keys + [e.key] && e.key !in keys;
    EntriesAppend(d, section, keys, e.key);
    EntriesSame(c, d, section, keys);
    assert Get(d, section, e.key) == e.value;
    assert KeyComments(d, section, e.key) == e.comments;
  }

  lemma AddedSectionSpares(c: Config, name: string, comments: string, t: string)
    requires name != "" && t != name && t != ""
    ensures Shown(AddedSection(c, name, comments), t) == Shown(c, t)
  {
    EntriesSame(c, AddedSection(c, name, comments), t, KeysOf(c, t));
  }

  lemma AddedSectionClean(c: Config, name: string, comments: string)
    requires Clean(c) && name != ""
    ensures Clean(AddedSection(c, name, comments))
  {
    var d := if comments == "" then c else WithSectionComments(c, name, comments).1;
    assert Valid(d) by { SectionCommentsKeepValid(c, name, comments); }
    SetKeepsValid(d, name, " ", " ");
    SectionTidy(c, name, comments);
  }

  lemma SectionTidy(c: Config, name: string, comments: string)
    requires Tidy(c) && name != ""
    ensures Tidy(AddedSection(c, name, comments))
  {
  }

  lemma ShowsSection(c: Config, name: string, comments: string)
    requires Clean(c) && name != "" && name !in c.data && (comments == "" || CommentOk(comments))
    ensures var d := AddedSection(c, name, comments);
            d.sections == c.sections + [name] && Shown(d, name) == Section(name, comments, [])
  {
    var d := AddedSection(c, name, comments);
    assert KeysOf(d, name) == [" "];
    assert Entries(d, name, [" "]) == [];
  }

  // ---- Rebuilding the outline ----

  lemma CommentedOk(comments: string)
    requires Commented(comments)
    ensures comments == "" || CommentOk(comments)
  {
    if comments != "" { assert comments[..LineEnd(comments)][0] == comments[0]; }
  }

  /** The reader has read the sections done, and stands in section s, read so far. */
  ghost predicate Built(r: Reader, done: seq<Section>, s: Section) {
    && Clean(r.config) && r.comments == "" && r.section == s.name != ""
    && r.config.sections == Names(done) + [s.name]
    && Sections(r.config, Names(done)) == done && Shown(r.config, s.name) == s
  }

  ghost predicate Apart(done: seq<Section>, name: string) {
    "" !in Names(done) && name !in Names(done)
  }

  lemma {:induction false} EntryBuilds(r: Reader, done: seq<Section>, s: Section, e: Entry)
    requires Built(r, done, s) && Apart(done, s.name)
    requires e.key != "" && EntryWritable(e, r.count) && e.key !in Keys(s.entries)
    ensures Built(AfterEntry(r, e), done, s.(entries := s.entries + [e]))
  {
    var c, d := r.config, AddedEntry(r.config, r.section, e);
    AfterEntryIs(r, e);
    assert AfterEntry(r, e).config == d;
    assert s.name in c.sections && SectionOk(c, s.name);
    ShownKeys(c, s.name, KeysOf(c, s.name), e.key);
    CommentedOk(e.comments);
    AddedEntryClean(c, s.name, e);
    ShowsEntry(c, s.name, e);
    forall n | n in Names(done) ensures Shown(d, n) == Shown(c, n) { SparesOthers(c, s.name, e, n); }
    SectionsSame(c, d, Names(done));
  }

  lemma {:induction false} EntriesBuild(r: Reader, done: seq<Section>, s: Section, entries: seq<Entry>)
    requires Built(r, done, s) && Apart(done, s.name)
    requires EntriesWritable(entries, r.count) && Distinct(Keys(s.entries + entries))
    ensures Built(AfterEntries(r, entries), done, s.(entries := s.entries + entries))
    decreases |entries|
  {
    if entries == [] {
      assert s.entries + entries == s.entries;
    } else {
      var e := entries[0];
      NamedWritable(entries, r.count);
      NextIsNew(s.entries, entries);
      EntryBuilds(r, done, s, e);
      AfterEntryIs(r, e);
      Shift(s.entries, entries);
      EntriesBuild(AfterEntry(r, e), done, s.(entries := s.entries + [e]), entries[1..]);
    }
  }

  lemma Shift<T>(a: seq<T>, b: seq<T>)
    requires b != []
    ensures a + [b[0]] + b[1..] == a + b
  {
  }

  lemma {:induction false} NextIsNew(a: seq<Entry>, b: seq<Entry>)
    requires b != [] && Distinct(Keys(a + b))
    ensures b[0].key !in Keys(a)
  {
    KeysConcat(a, b);
    var keys := Keys(a + b);
    assert keys[|Keys(a)|] == b[0].key;
    assert forall i :: 0 <= i < |Keys(a)| ==> keys[i] == Keys(a)[i];
  }

  lemma HeaderBuilds(r: Reader, done: seq<Section>, s: Section)
    requires Clean(r.config) && Outline(r.config) == done && r.config.sections == Names(done)
    requires Apart(done, s.name) && s.name != "" && Commented(s.comments)
    ensures Built(WithSection(r.(comments := s.comments), s.name), done, s.(entries := []))
  {
    var c, d := r.config, AddedSection(r.config, s.name, s.comments);
    CommentedOk(s.comments);
    AddedSectionClean(c, s.name, s.comments);
    ShowsSection(c, s.name, s.comments);
    forall n | n in Names(done) ensures Shown(d, n) == Shown(c, n) { AddedSectionSpares(c, s.name, s.comments, n); }
    SectionsSame(c, d, Names(done));
  }

  /** The default section has no header: its first key creates it. */
  lemma DefaultBuilds(e: Entry)
    requires e.key != "" && EntryWritable(e, 1)
    ensures Built(AfterEntry(START, e), [], Section(DEFAULT_SECTION, "", [e]))
  {
    var d := AddedEntry(EMPTY, DEFAULT_SECTION, e);
    AfterEntryIs(START, e);
    CommentedOk(e.comments);
    AddedEntryClean(EMPTY, DEFAULT_SECTION, e);
    ShowsEntry(EMPTY, DEFAULT_SECTION, e);
    assert Shown(EMPTY, DEFAULT_SECTION).entries + [e] == [e];
    assert Names([]) == [] && d.sections == [DEFAULT_SECTION];
  }

  lemma SectionBuilds(r: Reader, done: seq<Section>, s: Section)
    requires Finished(r, done) && Apart(done, s.name) && SectionWritable(s)
    requires s.name == DEFAULT_SECTION ==> r == START && s.comments == "" && s.entries != []
    ensures Built(AfterSection(r, s), done, s)
  {
    if s.name == DEFAULT_SECTION {
      var e := s.entries[0];
      NamedWritable(s.entries, 1);
      assert done == [] && s.entries == [e] + s.entries[1..];
      DefaultBuilds(e);
      AfterEntryIs(r, e);
      EntriesBuild(AfterEntry(r, e), done, s.(entries := [e]), s.entries[1..]);
    } else {
      HeaderBuilds(r, done, s);
      assert [] + s.entries == s.entries;
      EntriesBuild(WithSection(r.(comments := s.comments), s.name), done, s.(entries := []), s.entries);
    }
  }

  lemma BuiltOutline(r: Reader, done: seq<Section>, s: Section)
    requires Built(r, done, s)
    ensures Outline(r.config) == done + [s] && r.config.sections == Names(done + [s])
  {
    SectionsAppend(r.config, Names(done), s.name);
    NamesConcat(done, [s]);
    assert Names([s]) == [s.name];
  }

  /** A default section is only met at the very start. */
  ghost predicate DefaultFirst(outline: seq<Section>, atStart: bool) {
    forall i :: 0 <= i < |outline| && outline[i].name == DEFAULT_SECTION ==>
      i == 0 && atStart && outline[i].comments == "" && outline[i].entries != []
  }

  lemma NoLaterDefault(outline: seq<Section>, atStart: bool, later: bool)
    requires outline != [] && DefaultFirst(outline, atStart)
    ensures DefaultFirst(outline[1..], later)
  {
    forall i | 0 <= i < |outline[1..]| ensures outline[1..][i].name != DEFAULT_SECTION {
      assert outline[1..][i] == outline[i + 1];
    }
  }

  ghost predicate Finished(r: Reader, done: seq<Section>) {
    Clean(r.config) && r.comments == "" && Outline(r.config) == done && r.config.sections == Names(done)
  }

  lemma {:induction false} AllBuild(r: Reader, done: seq<Section>, outline: seq<Section>)
    requires Finished(r, done) && "" !in Names(done) && Distinct(Names(done + outline))
    requires DefaultFirst(outline, r == START) && forall s :: s in outline ==> SectionWritable(s)
    ensures Outline(AfterAll(r, outline).config) == done + outline
    decreases |outline|
  {
    if outline == [] {
      assert done + outline == done;
    } else {
      var s := outline[0];
      var q := AfterSection(r, s);
      NextSectionIsNew(done, outline);
      SectionBuilds(r, done, s);
      BuiltOutline(q, done, s);
      NoLaterDefault(outline, r == START, q == START);
      BlankIsNoName(done, s);
      Shift(done, outline);
      AllBuild(q, done + [s], outline[1..]);
    }
  }

  lemma BlankIsNoName(done: seq<Section>, s: Section)
    requires "" !in Names(done) && s.name != ""
    ensures "" !in Names(done + [s])
  {
    NamesConcat(done, [s]);
  }

  lemma {:induction false} NextSectionIsNew(a: seq<Section>, b: seq<Section>)
    requires b != [] && Distinct(Names(a + b))
    ensures b[0].name !in Names(a)
  {
    NamesConcat(a, b);
    var names := Names(a + b);
    assert names[|Names(a)|] == b[0].name;
    assert forall i :: 0 <= i < |Names(a)| ==> names[i] == Names(a)[i];
  }

  lemma {:induction false} BuildsFromStart(outline: seq<Section>, pretty: bool)
    requires Printable(outline) && forall s :: s in outline ==> Named(s)
    ensures var result := ReadFrom(START, Text(outline, pretty));
            result.error == None && Outline(result.reader.config) == outline
  {
    assert [] + outline == outline;
    assert Finished(START, []) by { assert Outline(EMPTY) == [] && Names([]) == []; }
    ReadAll(START, outline, pretty);
    AllBuild(START, [], outline);
  }

  /** Sections, keys, values and comments come back in the same order, pretty or not. */
  lemma {:induction false} RoundTrip(outline: seq<Section>, pretty: bool)
    requires Printable(outline) && forall s :: s in outline ==> Named(s)
    requires var text := Text(outline, pretty); text == "" || text[0] != BOM
    ensures Read(Text(outline, pretty)).error == None
    ensures Outline(Read(Text(outline, pretty)).reader.config) == outline
  {
    BuildsFromStart(outline, pretty);
  }

  // ---- What equal outlines mean to a caller ----

  lemma {:induction false} EntryOf(c: Config, section: string, keys: seq<string>, key: string)
    requires key in keys && key != " "
    ensures Entry(key, Get(c, section, key), KeyComments(c, section, key)) in Entries(c, section, keys)
  {
    if keys[0] != key { EntryOf(c, section, keys[1..], key); }
  }

  lemma {:induction false} EntryFrom(c: Config, section: string, keys: seq<string>, e: Entry)
    requires e in Entries(c, section, keys)
    ensures e.key in keys && e == Entry(e.key, Get(c, section, e.key), KeyComments(c, section, e.key))
  {
    if keys[0] == " " || e != Entries(c, section, keys)[0] { EntryFrom(c, section, keys[1..], e); }
  }

  lemma {:induction false} SectionsAgree(c: Config, d: Config, names: seq<string>, name: string)
    requires Sections(c, names) == Sections(d, names) && name in names
    ensures Shown(c, name) == Shown(d, name)
  {
    assert Sections(c, names)[0] == Sections(d, names)[0] && Sections(c, names)[1..] == Sections(d, names)[1..];
    if names[0] != name { SectionsAgree(c, d, names[1..], name); }
  }

  /** Configurations that show the same have the same sections, and the same values and comments of keys. */
  lemma OutlineDetermines(c: Config, d: Config, section: string, key: string)
    requires Valid(c) && Valid(d) && Outline(c) == Outline(d) && key != " "
    ensures c.sections == d.sections
    ensures Has(c, section, key) ==> Has(d, section, key) && Get(d, section, key) == Get(c, section, key)
                                     && KeyComments(d, section, key) == KeyComments(c, section, key)
  {
    NamesOfSections(c, c.sections);
    NamesOfSections(d, d.sections);
    var s := Name(section);
    if Has(c, section, key) {
      assert SectionOk(c, s) && s in c.sections && SectionOk(d, s);
      SectionsAgree(c, d, c.sections, s);
      EntryOf(c, s, KeysOf(c, s), key);
      EntryFrom(d, s, KeysOf(d, s), Entry(key, Get(c, s, key), KeyComments(c, s, key)));
    }
  }

  /** A default section without keys prints as a blank line, and is gone; the rest is read back. */
  lemma {:induction false} EmptyDefaultVanishes(rest: seq<Section>, pretty: bool)
    requires Printable(rest) && forall s :: s in rest ==> Named(s) && s.name != DEFAULT_SECTION
    ensures var result := Read(Text([Section(DEFAULT_SECTION, "", [])] + rest, pretty));
            result.error == None && Outline(result.reader.config) == rest
  {
    var s := Section(DEFAULT_SECTION, "", []);
    var text := Text([s] + rest, pretty);
    BlankFirst(s, rest, pretty);
    assert text[0] != BOM;
    ReadBlank(START, Text(rest, pretty));
    BuildsFromStart(rest, pretty);
  }

  lemma {:induction false} BlankFirst(s: Section, rest: seq<Section>, pretty: bool)
    requires s == Section(DEFAULT_SECTION, "", []) && forall s :: s in rest ==> Named(s)
    ensures Text([s] + rest, pretty) == "\n" + Text(rest, pretty)
  {
    assert ([s] + rest)[1..] == rest;
    assert SectionText(s, pretty) == "\n";
  }

  // ---- The programs ----

  lemma {:induction false} EntriesNamed(c: Config, section: string, keys: seq<string>)
    requires "" !in keys
    ensures forall e :: e in Entries(c, section, keys) ==> e.key != ""
  {
    if keys != [] { EntriesNamed(c, section, keys[1..]); }
  }

  lemma OutlineNamed(c: Config, names: seq<string>)
    requires Valid(c) && forall n :: n in names ==> n in c.data
    ensures forall s :: s in Sections(c, names) ==> Named(s)
  {
    if names != [] {
      assert names[0] in names && SectionOk(c, names[0]);
      EntriesNamed(c, names[0], KeysOf(c, names[0]));
      OutlineNamed(c, names[1..]);
    }
  }

  /** The text still to be written. */
  ghost predicate Remains(outline: seq<Section>, pretty: bool, text: string, whole: string) {
    && (forall s :: s in outline ==> Named(s))
    && text + Text(outline, pretty) == whole
  }

  lemma SaveStep(outline: seq<Section>, i: nat, pretty: bool, text: string, whole: string)
    requires i < |outline| && Remains(outline[i..], pretty, text, whole)
    ensures Named(outline[i])
    ensures Remains(outline[i + 1..], pretty, text + SectionText(outline[i], pretty), whole)
  {
    var all := outline[i..];
    assert all[0] == outline[i] && all[1..] == outline[i + 1..];
    SaveFirst(all, pretty, text, whole);
  }

  lemma {:induction false} SaveFirst(all: seq<Section>, pretty: bool, text: string, whole: string)
    requires all != [] && Remains(all, pretty, text, whole)
    ensures Named(all[0]) && Remains(all[1..], pretty, text + SectionText(all[0], pretty), whole)
  {
    assert Named(all[0]);
    Regrouped(text, SectionText(all[0], pretty), Text(all[1..], pretty));
  }

  lemma Regrouped(a: string, b: string, c: string)
    ensures a + (b + c) == a + b + c
  {
  }

  lemma {:induction false} SectionsAt(c: Config, names: seq<string>)
    ensures |Sections(c, names)| == |names|
    ensures forall i :: 0 <= i < |names| ==> Sections(c, names)[i] == Shown(c, names[i])
  {
    if names != [] { SectionsAt(c, names[1..]); }
  }

  ghost predicate EntriesRemain(c: Config, name: string, keys: seq<string>, pretty: bool, text: string, whole: string) {
    && (forall e :: e in Entries(c, name, keys) ==> e.key != "")
    && text + EntriesText(Entries(c, name, keys), pretty) == whole
  }

  lemma SaveEntryStep(c: Config, name: string, keys: seq<string>, pretty: bool, text: string, whole: string)
    requires keys != [] && EntriesRemain(c, name, keys, pretty, text, whole)
    ensures keys[0] == " " ==> EntriesRemain(c, name, keys[1..], pretty, text, whole)
    ensures keys[0] != " " ==>
              var e := Entry(keys[0], Get(c, name, keys[0]), KeyComments(c, name, keys[0]));
              e.key != "" && EntriesRemain(c, name, keys[1..], pretty, text + EntryText(e, pretty), whole)
  {
    var all := Entries(c, name, keys);
    if keys[0] != " " {
      assert all[0] in all && all[1..] == Entries(c, name, keys[1..]);
      var entry, rest := EntryText(all[0], pretty), EntriesText(all[1..], pretty);
      Regrouped(text, entry, rest);
    }
  }

  method SaveConfigData(c: ConfigFile, pretty: bool) returns (text: string)
    requires Valid(c.View())
    ensures forall s :: s in Outline(c.View()) ==> Named(s)
    ensures text == Text(Outline(c.View()), pretty)
  {
    ghost var outline := Outline(c.View());
    OutlineNamed(c.View(), c.sectionList);
    SectionsAt(c.View(), c.sectionList);
    ghost var whole := Text(outline, pretty);
    text := "";
    assert outline[0..] == outline && "" + whole == whole;
    for i := 0 to |c.sectionList|
      invariant Remains(outline[i..], pretty, text, whole)
    {
      SaveStep(outline, i, pretty, text, whole);
      var section := SaveSection(c, c.sectionList[i], pretty);
      text := text + section;
    }
    assert text + "" == text;
  }

  method SaveSection(c: ConfigFile, name: string, pretty: bool) returns (text: string)
    requires Valid(c.View()) && name in c.data
    ensures Named(Shown(c.View(), name)) && text == SectionText(Shown(c.View(), name), pretty)
  {
    assert SectionOk(c.View(), name);
    var comments := Lookup(c.sectionComments, name, "");
    text := if comments != "" then comments + "\n" else "";
    var header := if name != DEFAULT_SECTION then "[" + name + "]\n" else "";
    EntriesNamed(c.View(), name, c.keyList[name]);
    var body := SaveEntries(c, name, pretty);
    text := text + (header + (body + "\n"));
  }

  method SaveEntries(c: ConfigFile, name: string, pretty: bool) returns (text: string)
    requires SectionOk(c.View(), name)
    requires forall e :: e in Entries(c.View(), name, c.keyList[name]) ==> e.key != ""
    ensures text == EntriesText(Entries(c.View(), name, c.keyList[name]), pretty)
  {
    ghost var config := c.View();
    var keys := c.keyList[name];
    ghost var whole := EntriesText(Entries(config, name, keys), pretty);
    text := "";
    assert keys[0..] == keys && "" + whole == whole;
    for i := 0 to |keys|
      invariant EntriesRemain(config, name, keys[i..], pretty, text, whole)
    {
      SaveEntryStep(config, name, keys[i..], pretty, text, whole);
      assert keys[i..][0] == keys[i] && keys[i..][1..] == keys[i + 1..];
      if keys[i] != " " {
        var entry := SaveEntry(c, name, keys[i], pretty);
        text := text + entry;
      }
    }
    assert text + "" == text;
  }

  method SaveEntry(c: ConfigFile, name: string, key: string, pretty: bool) returns (text: string)
    requires name != "" && key != "" && key in Lookup(c.data, name, map[])
    ensures text == EntryText(Entry(key, Get(c.View(), name, key), KeyComments(c.View(), name, key)), pretty)
  {
    var comments := Lookup(Lookup(c.keyComments, name, map[]), key, "");
    text := if comments != "" then comments + "\n" else "";
    text := text + (KeyText(key) + EqualSign(pretty) + ValueText(c.data[name][key]) + "\n");
  }

  method LoadFromReader(text: string) returns (c: ConfigFile, error: Option<ReadError>)
    ensures fresh(c) && c.View() == Read(text).reader.config && error == Read(text).error
  {
    c := new ConfigFile();
    var rest := if text != "" && text[0] == BOM then text[1..] else text;
    var section, comments, count, eof := DEFAULT_SECTION, "", 1, false;
    error := None;
    while !eof && error == None
      invariant fresh(c)
      invariant !eof && error == None ==> ReadFrom(Reader(c.View(), section, comments, count), rest) == Read(text)
      invariant eof || error != None ==> Outcome(Reader(c.View(), section, comments, count), error) == Read(text)
      decreases !eof, |rest|
    {
      var end := LineEnd(rest);
      section, comments, count, error := ParseLine(c, section, comments, count, TrimSpace(rest[..end]));
      eof := end == |rest|;
      if !eof {
        rest := rest[end + 1..];
      }
    }
  }

  /** One line of the parsing loop. */
  method ParseLine(c: ConfigFile, section: string, comments: string, count: nat, line: string)
    returns (section': string, comments': string, count': nat, error: Option<ReadError>)
    modifies c
    ensures ReadLine(old(Reader(c.View(), section, comments, count)), line)
            == Outcome(Reader(c.View(), section', comments', count'), error)
  {
    section', comments', count', error := section, comments, count, None;
    if line == "" {
    } else if line[0] == '#' || line[0] == ';' {
      comments' := Joined(comments, line);
    } else if line[0] == '[' && line[|line| - 1] == ']' {
      section' := TrimSpace(line[1..|line| - 1]);
      if comments != "" {
        var _ := c.SetSectionComments(section', comments);
        comments' := "";
      }
      var _ := c.SetValue(section', " ", " ");
      count' := 1;
    } else if section == "" {
      error := Some(BlankSection(line));
    } else {
      var parsed := ParseAssignment(line);
      if parsed == None {
        error := Some(CouldNotParse(line));
        return;
      }
      var key := parsed.value.key;
      if key == "-" {
        key := "#" + Decimal(count);
        count' := count + 1;
      }
      var _ := c.SetValue(section, key, parsed.value.value);
      if comments != "" {
        var _ := c.SetKeyComments(section, key, comments);
        comments' := "";
      }
    }
  }

  /** Writing a configuration and reading it back shows the same, on the printable domain. */
  method SaveAndLoad(c: ConfigFile, pretty: bool) returns (text: string, d: ConfigFile, error: Option<ReadError>)
    requires Valid(c.View()) && Printable(Outline(c.View()))
    ensures fresh(d)
    ensures text == "" || text[0] != BOM ==> error == None && Outline(d.View()) == Outline(c.View())
  {
    text := SaveConfigData(c, pretty);
    if text == "" || text[0] != BOM {
      RoundTrip(Outline(c.View()), pretty);
    }
    d, error := LoadFromReader(text);
  }
}
