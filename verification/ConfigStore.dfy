/** ConfigFile: sections, keys, values and comments, in insertion order. */
module ConfigStores {

  const DEFAULT_SECTION := "DEFAULT"

  datatype Config = Config(
    sections: seq<string>, data: map<string, map<string, string>>, keys: map<string, seq<string>>,
    sectionComments: map<string, string>, keyComments: map<string, map<string, string>>)

  const EMPTY := Config([], map[], map[], map[], map[])

  /** A blank section name stands for the default section. */
  function Name(section: string): string {
    if section == "" then DEFAULT_SECTION else section
  }

  function Lookup<V>(m: map<string, V>, k: string, missing: V): V {
    if k in m then m[k] else missing
  }

  function KeysOf(c: Config, section: string): seq<string> {
    Lookup(c.keys, section, [])
  }

  // ---- The operations ----

  function Position<T(==)>(list: seq<T>, x: T): (i: nat)
    ensures i <= |list|
    ensures x !in list[..i]
    ensures i < |list| ==> list[i] == x
    ensures i == |list| ==> x !in list
  {
    if list == [] || list[0] == x then 0
    else
      var i := 1 + Position(list[1..], x);
      assert list[..i] == [list[0]] + list[1..][..i - 1];
      i
  }

  function Without<T(==)>(list: seq<T>, x: T): seq<T> {
    var i := Position(list, x);
    if i < |list| then list[..i] + list[i + 1..] else list
  }

  function WithValue(c: Config, section: string, key: string, value: string): (bool, Config) {
    var s := Name(section);
    if key == "" then (false, c)
    else
      var sections := if s in c.data then c.sections else c.sections + [s];
      var pairs := Lookup(c.data, s, map[]);
      var isNew := key !in pairs;
      (isNew, c.(sections := sections, data := c.data[s := pairs[key := value]],
                 keys := if isNew then c.keys[s := KeysOf(c, s) + [key]] else c.keys))
  }

  function Prefixed(comments: string): string
    requires comments != ""
  {
    if comments[0] != '#' && comments[0] != ';' then "; " + comments else comments
  }

  function WithSectionComments(c: Config, section: string, comments: string): (bool, Config) {
    var s := Name(section);
    if comments == "" then (true, c.(sectionComments := c.sectionComments - {s}))
    else (s !in c.sectionComments, c.(sectionComments := c.sectionComments[s := Prefixed(comments)]))
  }

  function WithKeyComments(c: Config, section: string, key: string, comments: string): (bool, Config) {
    var s := Name(section);
    var comment := Lookup(c.keyComments, s, map[]);
    if comments == "" then
      (true, if s in c.keyComments then c.(keyComments := c.keyComments[s := comment - {key}]) else c)
    else (key !in comment, c.(keyComments := c.keyComments[s := comment[key := Prefixed(comments)]]))
  }

  function WithoutKey(c: Config, section: string, key: string): (bool, Config) {
    var s := Name(section);
    if s !in c.data || key !in c.data[s] then (false, c)
    else
      var d := WithKeyComments(c.(data := c.data[s := c.data[s] - {key}]), s, key, "").1;
      (true, d.(keys := c.keys[s := Without(KeysOf(c, s), key)]))
  }

  function WithoutSection(c: Config, section: string): (bool, Config) {
    var s := Name(section);
    if s !in c.data then (false, c)
    else
      var d := WithSectionComments(c.(data := c.data - {s}), s, "").1;
      (true, d.(sections := Without(c.sections, s), keys := c.keys - {s}))
  }

  function SectionComments(c: Config, section: string): string {
    Lookup(c.sectionComments, Name(section), "")
  }

  function KeyComments(c: Config, section: string, key: string): string {
    Lookup(Lookup(c.keyComments, Name(section), map[]), key, "")
  }

  function Get(c: Config, section: string, key: string): string {
    Lookup(Lookup(c.data, Name(section), map[]), key, "")
  }

  predicate Has(c: Config, section: string, key: string) {
    key in Lookup(c.data, Name(section), map[])
  }

  /** The keeper key " " is not shown. */
  function Visible(list: seq<string>): seq<string> {
    if list == [] then [] else if list[0] == " " then Visible(list[1..]) else [list[0]] + Visible(list[1..])
  }

  // ---- The invariant: the lists name each section and each key exactly once ----

  ghost predicate Distinct<T>(list: seq<T>) {
    forall i, j :: 0 <= i < j < |list| ==> list[i] != list[j]
  }

  ghost predicate Lists(list: seq<string>, names: set<string>) {
    && Distinct(list)
    && (forall x :: x in list <==> x in names)
  }

  ghost predicate SectionOk(c: Config, s: string) {
    && s != "" && s in c.data && s in c.keys && "" !in c.data[s]
    && Lists(c.keys[s], c.data[s].Keys)
  }

  predicate CommentOk(comments: string) {
    comments != "" && (comments[0] == '#' || comments[0] == ';')
  }

  ghost predicate Valid(c: Config) {
    && Lists(c.sections, c.data.Keys) && c.keys.Keys == c.data.Keys
    && (forall s {:trigger SectionOk(c, s)} :: s in c.data ==> SectionOk(c, s))
    && (forall s :: s in c.sectionComments ==> CommentOk(c.sectionComments[s]))
    && (forall s, k :: s in c.keyComments && k in c.keyComments[s] ==> CommentOk(c.keyComments[s][k]))
  }

  lemma ListsAppend(list: seq<string>, names: set<string>, x: string)
    requires Lists(list, names) && x !in names
    ensures Lists(list + [x], names + {x})
  {
  }

  lemma ListsRemove(list: seq<string>, names: set<string>, x: string)
    requires Lists(list, names) && x in names
    ensures Lists(Without(list, x), names - {x})
    ensures |Without(list, x)| == |list| - 1
  {
    var i := Position(list, x);
    var rest := Without(list, x);
    forall y | y in rest ensures y in names - {x} {
      var j :| 0 <= j < |rest| && rest[j] == y;
      assert y == list[if j < i then j else j + 1];
    }
    forall y | y in names - {x} ensures y in rest {
      var j :| 0 <= j < |list| && list[j] == y;
      assert rest[if j < i then j else j - 1] == y;
    }
  }

  /** The list without one of its elements: the others, in the same order. */
  ghost predicate Removes(list: seq<string>, x: string, rest: seq<string>) {
    exists i :: 0 <= i < |list| && list[i] == x && rest == list[..i] + list[i + 1..]
  }

  lemma {:induction false} WithoutAppended(list: seq<string>, x: string)
    requires x !in list
    ensures Position(list + [x], x) == |list| && Without(list + [x], x) == list
  {
    if list != [] {
      assert (list + [x])[1..] == list[1..] + [x];
      WithoutAppended(list[1..], x);
    }
  }

  lemma SetKeepsValid(c: Config, section: string, key: string, value: string)
    requires Valid(c)
    ensures Valid(WithValue(c, section, key, value).1)
  {
    var s, d := Name(section), WithValue(c, section, key, value).1;
    if key != "" {
      assert s in c.data ==> SectionOk(c, s);
      SetKeepsList(c, section, key, value);
      SetKeepsSection(c, section, key, value);
      forall t | t in d.data ensures SectionOk(d, t) {
        if t != s { SetSparesSection(c, section, key, value, t); }
      }
    }
  }

  lemma SetKeepsList(c: Config, section: string, key: string, value: string)
    requires Lists(c.sections, c.data.Keys) && c.keys.Keys == c.data.Keys && key != ""
    requires Name(section) in c.data ==> SectionOk(c, Name(section))
    ensures var d := WithValue(c, section, key, value).1; Lists(d.sections, d.data.Keys) && d.keys.Keys == d.data.Keys
  {
    var s, d := Name(section), WithValue(c, section, key, value).1;
    if s !in c.data { ListsAppend(c.sections, c.data.Keys, s); }
    assert d.data.Keys == c.data.Keys + {s};
    assert d.keys.Keys == c.keys.Keys + {s};
  }

  lemma SetSparesSection(c: Config, section: string, key: string, value: string, t: string)
    requires t != Name(section) && SectionOk(c, t)
    ensures SectionOk(WithValue(c, section, key, value).1, t)
  {
  }

  lemma SetKeepsSection(c: Config, section: string, key: string, value: string)
    requires key != "" && c.keys.Keys == c.data.Keys && (Name(section) in c.data ==> SectionOk(c, Name(section)))
    ensures SectionOk(WithValue(c, section, key, value).1, Name(section))
  {
    var s, d := Name(section), WithValue(c, section, key, value).1;
    if s in c.data {
      if key !in c.data[s] { ListsAppend(c.keys[s], c.data[s].Keys, key); }
      assert d.data[s].Keys == c.data[s].Keys + {key};
    } else {
      assert d.keys[s] == [key] && d.data[s].Keys == {key};
    }
  }

  lemma SectionCommentsKeepValid(c: Config, section: string, comments: string)
    requires Valid(c)
    ensures Valid(WithSectionComments(c, section, comments).1)
  {
    var d := WithSectionComments(c, section, comments).1;
    forall t | t in d.data ensures SectionOk(d, t) { assert SectionOk(c, t); }
  }

  lemma KeyCommentsKeepValid(c: Config, section: string, key: string, comments: string)
    requires Valid(c)
    ensures Valid(WithKeyComments(c, section, key, comments).1)
  {
    var d := WithKeyComments(c, section, key, comments).1;
    forall t | t in d.data ensures SectionOk(d, t) { assert SectionOk(c, t); }
  }

  lemma DeleteKeyKeepsValid(c: Config, section: string, key: string)
    requires Valid(c)
    ensures Valid(WithoutKey(c, section, key).1)
  {
    var s, d := Name(section), WithoutKey(c, section, key).1;
    if s in c.data && key in c.data[s] {
      DeleteKeyKeepsSection(c, s, key);
      assert d.data.Keys == c.data.Keys;
      forall t | t in d.data ensures SectionOk(d, t) {
        if t != s { assert SectionOk(c, t); }
      }
      forall t, k | t in d.keyComments && k in d.keyComments[t] ensures CommentOk(d.keyComments[t][k]) {
        assert t in c.keyComments && k in c.keyComments[t];
      }
    }
  }

  lemma DeleteKeyKeepsSection(c: Config, s: string, key: string)
    requires Valid(c) && s in c.data && key in c.data[s]
    ensures SectionOk(WithoutKey(c, s, key).1, s)
  {
    assert SectionOk(c, s);
    var d := WithoutKey(c, s, key).1;
    ListsRemove(c.keys[s], c.data[s].Keys, key);
    assert d.data[s].Keys == c.data[s].Keys - {key};
  }

  lemma {:induction false} DeleteSectionKeepsValid(c: Config, section: string)
    requires Valid(c)
    ensures Valid(WithoutSection(c, section).1)
  {
    var s, d := Name(section), WithoutSection(c, section).1;
    if s in c.data {
      ListsRemove(c.sections, c.data.Keys, s);
      assert d.data.Keys == c.data.Keys - {s} && d.keys.Keys == c.keys.Keys - {s};
      forall t | t in d.data ensures SectionOk(d, t) { assert SectionOk(c, t); }
    }
  }

  // ---- Runs ----

  datatype Op =
    | SetValue(section: string, key: string, value: string)
    | DeleteKey(section: string, key: string)
    | DeleteSection(section: string)
    | SetSectionComments(section: string, comments: string)
    | SetKeyComments(section: string, key: string, comments: string)

  function Applied(c: Config, op: Op): Config {
    match op
    case SetValue(s, k, v) => WithValue(c, s, k, v).1
    case DeleteKey(s, k) => WithoutKey(c, s, k).1
    case DeleteSection(s) => WithoutSection(c, s).1
    case SetSectionComments(s, t) => WithSectionComments(c, s, t).1
    case SetKeyComments(s, k, t) => WithKeyComments(c, s, k, t).1
  }

  function Run(c: Config, ops: seq<Op>): Config
    decreases |ops|
  {
    if ops == [] then c else Run(Applied(c, ops[0]), ops[1..])
  }

  lemma {:induction false} RunKeepsValid(c: Config, ops: seq<Op>)
    requires Valid(c)
    ensures Valid(Run(c, ops))
    decreases |ops|
  {
    if ops != [] {
      match ops[0] {
        case SetValue(s, k, v) => SetKeepsValid(c, s, k, v);
        case DeleteKey(s, k) => DeleteKeyKeepsValid(c, s, k);
        case DeleteSection(s) => DeleteSectionKeepsValid(c, s);
        case SetSectionComments(s, t) => SectionCommentsKeepValid(c, s, t);
        case SetKeyComments(s, k, t) => KeyCommentsKeepValid(c, s, k, t);
      }
      RunKeepsValid(Applied(c, ops[0]), ops[1..]);
    }
  }

  // ---- What the operations mean ----

  /** A value set is the value read, and no other value changes. */
  lemma SetThenGet(c: Config, section: string, key: string, value: string, s: string, k: string)
    requires Valid(c) && key != ""
    ensures var d := WithValue(c, section, key, value).1;
            if Name(s) == Name(section) && k == key then Has(d, s, k) && Get(d, s, k) == value
            else Has(d, s, k) == Has(c, s, k) && Get(d, s, k) == Get(c, s, k)
    ensures var (isNew, d) := WithValue(c, section, key, value);
            isNew == !Has(c, section, key)
            && KeysOf(d, Name(section)) == if isNew then KeysOf(c, Name(section)) + [key] else KeysOf(c, Name(section))
  {
  }

  /** The blank name is the default section's. */
  lemma BlankIsDefault(c: Config, key: string, value: string)
    requires key != ""
    ensures var d := WithValue(c, "", key, value).1;
            Has(d, "DEFAULT", key) && Get(d, "DEFAULT", key) == value && Get(d, "", key) == value
  {
  }

  /** A comment reads as it was set, behind a marker if it brings none; setting a blank one takes it away. No
      other section's comment changes, and no key's. */
  lemma SectionCommentThenRead(c: Config, section: string, comments: string, s: string, k: string)
    ensures var d := WithSectionComments(c, section, comments).1;
            && SectionComments(d, s) == (if Name(s) != Name(section) then SectionComments(c, s)
                                         else if comments == "" then ""
                                         else if comments[0] in {'#', ';'} then comments else "; " + comments)
            && KeyComments(d, s, k) == KeyComments(c, s, k) && Get(d, s, k) == Get(c, s, k)
  {
  }

  lemma KeyCommentThenRead(c: Config, section: string, key: string, comments: string, s: string, k: string)
    ensures var d := WithKeyComments(c, section, key, comments).1;
            && KeyComments(d, s, k) == (if Name(s) != Name(section) || k != key then KeyComments(c, s, k)
                                        else if comments == "" then ""
                                        else if comments[0] in {'#', ';'} then comments else "; " + comments)
            && SectionComments(d, s) == SectionComments(c, s) && Get(d, s, k) == Get(c, s, k)
  {
  }

  /** Deleting a key just added to an existing section undoes the addition. */
  lemma DeleteUndoesSet(c: Config, section: string, key: string, value: string)
    requires Valid(c) && key != "" && Name(section) in c.data && !Has(c, section, key)
    ensures var d := WithoutKey(WithValue(c, section, key, value).1, section, key).1;
            d.sections == c.sections && d.data == c.data && d.keys == c.keys && d.sectionComments == c.sectionComments
  {
    var s := Name(section);
    assert SectionOk(c, s);
    WithoutAppended(c.keys[s], key);
    assert c.data[s][key := value] - {key} == c.data[s];
    var d := WithValue(c, section, key, value).1;
    assert d.data[s := c.data[s]] == c.data && d.keys[s := c.keys[s]] == c.keys;
  }

  /** Deleting a section removes it and nothing else: the others keep their order, keys and values. */
  lemma DeleteSectionRemoves(c: Config, section: string, k: string)
    requires Valid(c) && Name(section) in c.data
    ensures var d := WithoutSection(c, section).1;
            Removes(c.sections, Name(section), d.sections) && SectionComments(d, section) == "" && !Has(d, section, k)
  {
    assert c.sections[Position(c.sections, Name(section))] == Name(section);
  }

  lemma DeleteSectionSpares(c: Config, section: string, s: string, k: string)
    requires Name(s) != Name(section)
    ensures var d := WithoutSection(c, section).1;
            && Has(d, s, k) == Has(c, s, k) && Get(d, s, k) == Get(c, s, k)
            && KeysOf(d, Name(s)) == KeysOf(c, Name(s)) && SectionComments(d, s) == SectionComments(c, s)
  {
  }

  /** The comments of its keys survive a section, and come back with a key of the same name;
      deleting the key first takes its comments away. */
  lemma SectionLeavesKeyComments(c: Config, section: string, key: string, value: string)
    requires Valid(c) && key != "" && Has(c, section, key)
    ensures KeyComments(WithValue(WithoutSection(c, section).1, section, key, value).1, section, key)
            == KeyComments(c, section, key)
    ensures KeyComments(WithValue(WithoutSection(WithoutKey(c, section, key).1, section).1, section, key, value).1,
            section, key) == ""
  {
  }

  // ---- The class ----

  class ConfigFile {
    var data: map<string, map<string, string>>
    var sectionList: seq<string>
    var keyList: map<string, seq<string>>
    var sectionComments: map<string, string>
    var keyComments: map<string, map<string, string>>

    function View(): Config
      reads this
    {
      Config(sectionList, data, keyList, sectionComments, keyComments)
    }

    constructor ()
      ensures View() == EMPTY
    {
      data, sectionList, keyList, sectionComments, keyComments := map[], [], map[], map[], map[];
    }

    method SetValue(section: string, key: string, value: string) returns (isNew: bool)
      modifies this
      ensures (isNew, View()) == WithValue(old(View()), section, key, value)
    {
      var s := Name(section);
      if key == "" {
        return false;
      }
      if s !in data {
        data := data[s := map[]];
        sectionList := sectionList + [s];
      }
      isNew := key !in data[s];
      data := data[s := data[s][key := value]];
      assert data == old(data)[s := Lookup(old(data), s, map[])[key := value]];
      if isNew {
        keyList := keyList[s := Lookup(keyList, s, []) + [key]];
      }
    }

    method DeleteKey(section: string, key: string) returns (deleted: bool)
      requires Valid(View())
      modifies this
      ensures (deleted, View()) == WithoutKey(old(View()), section, key)
    {
      var s := Name(section);
      if s !in data || key !in data[s] {
        return false;
      }
      assert SectionOk(View(), s);
      data := data[s := data[s] - {key}];
      var _ := SetKeyComments(s, key, "");
      var i := Find(keyList[s], key);
      keyList := keyList[s := keyList[s][..i] + keyList[s][i + 1..]];
      deleted := true;
    }

    method DeleteSection(section: string) returns (deleted: bool)
      requires Valid(View())
      modifies this
      ensures (deleted, View()) == WithoutSection(old(View()), section)
    {
      var s := Name(section);
      if s !in data {
        return false;
      }
      data := data - {s};
      var _ := SetSectionComments(s, "");
      var i := Find(sectionList, s);
      sectionList := sectionList[..i] + sectionList[i + 1..];
      keyList := keyList - {s};
      deleted := true;
    }

    method SetSectionComments(section: string, comments: string) returns (inserted: bool)
      modifies this
      ensures (inserted, View()) == WithSectionComments(old(View()), section, comments)
    {
      var s := Name(section);
      if comments == "" {
        sectionComments := sectionComments - {s};
        return true;
      }
      inserted := s !in sectionComments;
      sectionComments := sectionComments[s := Prefixed(comments)];
    }

    method SetKeyComments(section: string, key: string, comments: string) returns (inserted: bool)
      modifies this
      ensures (inserted, View()) == WithKeyComments(old(View()), section, key, comments)
    {
      var s := Name(section);
      if s in keyComments {
        if comments == "" {
          keyComments := keyComments[s := keyComments[s] - {key}];
          return true;
        }
      } else {
        if comments == "" {
          return true;
        }
        keyComments := keyComments[s := map[]];
      }
      inserted := key !in keyComments[s];
      keyComments := keyComments[s := keyComments[s][key := Prefixed(comments)]];
      assert keyComments == old(keyComments)[s := Lookup(old(keyComments), s, map[])[key := Prefixed(comments)]];
    }

    method GetKeyList(section: string) returns (list: seq<string>)
      ensures list == if Name(section) in data then Visible(KeysOf(View(), Name(section))) else []
    {
      var s := Name(section);
      if s !in data {
        return [];
      }
      var keys := Lookup(keyList, s, []);
      list := [];
      for i := 0 to |keys|
        invariant list + Visible(keys[i..]) == Visible(keys)
      {
        assert keys[i..][1..] == keys[i + 1..];
        if keys[i] != " " {
          list := list + [keys[i]];
        }
      }
    }
  }

  /** The counting loop of the two deletions. */
  method Find(list: seq<string>, x: string) returns (i: nat)
    requires x in list
    ensures i < |list| && i == Position(list, x)
  {
    i := 0;
    while list[i] != x
      invariant i < |list| && x !in list[..i] && Position(list, x) == i + Position(list[i..], x)
      decreases |list| - i
    {
      assert list[..i + 1] == list[..i] + [list[i]];
      assert list[i..][1..] == list[i + 1..];
      assert list[..|list|] == list;
      i := i + 1;
    }
  }
}
