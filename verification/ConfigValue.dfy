/** GetValue: %(name)s references, the default section, and dotted parents. */
module ConfigValues {
  import opened GoStrings
  import opened ConfigStores
  import opened Wrappers

  const DEPTH_VALUES := 200

  // ---- Strings ----

  function TrimLeftSet(s: string, cut: set<char>): string {
    if s == "" || s[0] !in cut then s else TrimLeftSet(s[1..], cut)
  }

  function TrimRightSet(s: string, cut: set<char>): string {
    if s == "" || s[|s| - 1] !in cut then s else TrimRightSet(s[..|s| - 1], cut)
  }

  /** What is left of a match when the cut sets are taken off its ends. */
  function Strip(match': string): string {
    TrimRightSet(TrimLeftSet(match', {'%', '('}), {')', 's'})
  }

  function FirstClose(s: string): (i: nat)
    ensures i <= |s|
    ensures i < |s| ==> s[i] == ')'
    ensures ')' !in s[..i]
  {
    if s == "" || s[0] == ')' then 0
    else
      var i := FirstClose(s[1..]);
      assert s[..i + 1] == [s[0]] + s[1..][..i];
      i + 1
  }

  /** A match of %\(([^\)]+)\)s at the front of s: its length, or 0. */
  function MatchAtFront(s: string): (n: nat)
    ensures n <= |s|
  {
    if |s| < 2 || s[0] != '%' || s[1] != '(' then 0
    else
      var i := FirstClose(s[2..]);
      if i > 0 && i + 3 < |s| && s[i + 3] == 's' then i + 4 else 0
  }

  /** The leftmost match, or "". */
  function FindReference(s: string): string {
    if s == "" then "" else if MatchAtFront(s) > 0 then s[..MatchAtFront(s)] else FindReference(s[1..])
  }

  function ReplaceAll(s: string, old': string, new': string): string
    requires old' != ""
  {
    if s == "" then ""
    else if old' <= s then new' + ReplaceAll(s[|old'|..], old', new')
    else [s[0]] + ReplaceAll(s[1..], old', new')
  }

  // ---- GetValue ----

  datatype Got = Value(value: string) | SectionNotFound(name: string) | KeyNotFound(name: string)

  /** None: the recursion through the default section goes deeper than depth. */
  function GetValue(c: Config, section: string, key: string, depth: nat): Option<Got>
    decreases depth, |section|, 1
  {
    var s := Name(section);
    if s !in c.data then Some(SectionNotFound(s))
    else if key !in c.data[s] then
      var i := LastIndex(section, ".");
      if i > -1 then GetValue(c, section[..i], key, depth) else Some(KeyNotFound(key))
    else
      match Substituted(c, s, c.data[s][key], DEPTH_VALUES, depth)
      case None => None
      case Some(v) => Some(Value(v))
  }

  /** The value of a reference: from the default section, substituted; else from the own one, as it stands. */
  function Referenced(c: Config, section: string, name: string, depth: nat): Option<string>
    decreases depth, 0, 0, 0
  {
    if depth == 0 then None
    else
      match GetValue(c, DEFAULT_SECTION, name, depth - 1)
      case None => None
      case Some(Value(v)) => Some(v)
      case Some(_) =>
        Some(if section != DEFAULT_SECTION && section in c.data && name in c.data[section] then c.data[section][name]
            else "")
  }

  /** The substitution loop, with the rounds left. */
  function Substituted(c: Config, section: string, value: string, rounds: nat, depth: nat): Option<string>
    decreases depth, 0, 0, rounds
  {
    var r := FindReference(value);
    if rounds == 0 || r == "" then Some(value)
    else
      match Referenced(c, section, Strip(r), depth)
      case None => None
      case Some(v) => Substituted(c, section, ReplaceAll(value, r, v), rounds - 1, depth)
  }

  // ---- Values as text and references ----

  datatype Piece = Text(text: string) | Ref(name: string)

  function Reference(name: string): string {
    "%(" + name + ")s"
  }

  /** A percent sign only starts a reference. */
  predicate Formed(p: Piece) {
    match p
    case Text(t) => '%' !in t
    case Ref(n) => n != "" && ')' !in n && '%' !in n && n[0] != '(' && n[|n| - 1] != 's'
  }

  predicate AllFormed(ps: seq<Piece>) {
    forall p :: p in ps ==> Formed(p)
  }

  function Shown(p: Piece): string {
    match p
    case Text(t) => t
    case Ref(n) => Reference(n)
  }

  function Render(ps: seq<Piece>): string {
    if ps == [] then "" else Shown(ps[0]) + Render(ps[1..])
  }

  function FirstRef(ps: seq<Piece>): Option<string> {
    if ps == [] then None else if ps[0].Ref? then Some(ps[0].name) else FirstRef(ps[1..])
  }

  /** Every reference to the name becomes the given pieces. */
  function Replaced(ps: seq<Piece>, name: string, by': seq<Piece>): seq<Piece> {
    if ps == [] then []
    else (if ps[0] == Ref(name) then by' else [ps[0]]) + Replaced(ps[1..], name, by')
  }

  // ---- Stripping ----

  lemma {:induction false} TrimLeftConcat(a: string, b: string, cut: set<char>)
    requires b != "" && b[0] !in cut
    ensures TrimLeftSet(a + b, cut) == TrimLeftSet(a, cut) + b
  {
    if a == "" {
      assert a + b == b;
    } else if a[0] in cut {
      assert (a + b)[1..] == a[1..] + b;
      TrimLeftConcat(a[1..], b, cut);
    }
  }

  lemma {:induction false} TrimLengths(s: string, cut: set<char>)
    ensures |TrimLeftSet(s, cut)| <= |s| && |TrimRightSet(s, cut)| <= |s|
  {
    if s != "" {
      TrimLengths(s[1..], cut);
      TrimLengths(s[..|s| - 1], cut);
    }
  }

  lemma StripIsTrim(name: string)
    ensures Strip(Reference(name)) == TrimRightSet(TrimLeftSet(name, {'%', '('}), {')', 's'})
  {
    LeftEnd(name, {'%', '('});
    RightEnd(TrimLeftSet(name, {'%', '('}), {')', 's'});
  }

  lemma LeftEnd(name: string, left: set<char>)
    requires left == {'%', '('}
    ensures TrimLeftSet(Reference(name), left) == TrimLeftSet(name, left) + ")s"
  {
    var t := name + ")s";
    assert Reference(name) == "%" + ("(" + t);
    TrimLeftStep('%', "(" + t, left);
    TrimLeftStep('(', t, left);
    TrimLeftConcat(name, ")s", left);
  }

  lemma RightEnd(x: string, right: set<char>)
    requires right == {')', 's'}
    ensures TrimRightSet(x + ")s", right) == TrimRightSet(x, right)
  {
    assert x + ")s" == x + ")" + "s";
    TrimRightStep(x + ")", 's', right);
    TrimRightStep(x, ')', right);
  }

  lemma TrimLeftStep(c: char, s: string, cut: set<char>)
    requires c in cut
    ensures TrimLeftSet([c] + s, cut) == TrimLeftSet(s, cut)
  {
    assert ([c] + s)[1..] == s;
  }

  lemma TrimRightStep(s: string, c: char, cut: set<char>)
    requires c in cut
    ensures TrimRightSet(s + [c], cut) == TrimRightSet(s, cut)
  {
    assert (s + [c])[..|s|] == s;
  }

  /** Stripping gives a name back unless it begins or ends with a character of the cut sets: a final s,
      for one, is lost. */
  lemma StripGivesName(name: string)
    requires name != "" && ')' !in name
    ensures Strip(Reference(name)) == name <==> name[0] !in {'%', '('} && name[|name| - 1] != 's'
  {
    StripIsTrim(name);
    TrimLengths(name[1..], {'%', '('});
    TrimLengths(TrimLeftSet(name, {'%', '('}), {')', 's'});
    TrimLengths(name[..|name| - 1], {')', 's'});
    assert name[|name| - 1] in name;
  }

  // ---- References in rendered values ----

  lemma {:induction false} FirstCloseIs(a: string, b: string)
    requires ')' !in a && b != "" && b[0] == ')'
    ensures FirstClose(a + b) == |a|
  {
    if a == "" {
      assert a + b == b;
    } else {
      assert a[0] in a && (a + b)[1..] == a[1..] + b;
      FirstCloseIs(a[1..], b);
    }
  }

  lemma MatchReference(name: string, rest: string)
    requires name != "" && ')' !in name
    ensures MatchAtFront(Reference(name) + rest) == |name| + 4
    ensures (Reference(name) + rest)[..|name| + 4] == Reference(name)
    ensures (Reference(name) + rest)[|name| + 4..] == rest
  {
    var s := Reference(name) + rest;
    assert s[2..] == name + (")s" + rest);
    FirstCloseIs(name, ")s" + rest);
  }

  /** A match is a percent sign and a name in parentheses, not empty and without a closing one, and an s. */
  lemma MatchIs(s: string)
    ensures MatchAtFront(s) > 0 <==> exists n :: 0 < n <= |s| - 4 && IsMatch(s, n)
    ensures forall n :: 0 < n <= |s| - 4 && IsMatch(s, n) ==> MatchAtFront(s) == n + 4
  {
    var m := MatchAtFront(s);
    if m > 0 {
      var tail := s[2..];
      assert s[2..m - 2] == tail[..m - 4] && tail[m - 4] == s[m - 2];
      assert IsMatch(s, m - 4);
    }
    forall n | 0 < n <= |s| - 4 && IsMatch(s, n) ensures m == n + 4 {
      assert s[2..] == s[2..n + 2] + s[n + 2..];
      FirstCloseIs(s[2..n + 2], s[n + 2..]);
    }
  }

  predicate IsMatch(s: string, n: nat)
    requires n <= |s| - 4
  {
    s[0] == '%' && s[1] == '(' && ')' !in s[2..n + 2] && s[n + 2] == ')' && s[n + 3] == 's'
  }

  /** The reference found is the leftmost match; without any, none is found. */
  lemma {:induction false} FindsLeftmost(s: string) returns (j: nat)
    ensures j <= |s| && forall i :: 0 <= i < j ==> MatchAtFront(s[i..]) == 0
    ensures if j == |s| then FindReference(s) == ""
            else MatchAtFront(s[j..]) > 0 && FindReference(s) == s[j..][..MatchAtFront(s[j..])]
  {
    if s == "" || MatchAtFront(s) > 0 {
      assert s[0..] == s;
      return 0;
    }
    var k := FindsLeftmost(s[1..]);
    j := k + 1;
    assert s[1..][k..] == s[j..];
    forall i | 0 <= i < j ensures MatchAtFront(s[i..]) == 0 {
      if i == 0 { assert s[0..] == s; } else { assert s[1..][i - 1..] == s[i..]; }
    }
  }

  /** A front match pins the name down. */
  lemma SameReference(m: string, n: string, rest: string)
    requires m != "" && n != "" && ')' !in m && ')' !in n && Reference(n) <= Reference(m) + rest
    ensures m == n
  {
    var s := Reference(m) + rest;
    MatchReference(m, rest);
    assert s == Reference(n) + s[|Reference(n)|..];
    MatchReference(n, s[|Reference(n)|..]);
    assert s[..|n| + 4][2..|n| + 2] == n && s[..|m| + 4][2..|m| + 2] == m;
  }

  lemma {:induction false} SkipText(t: string, rest: string)
    requires '%' !in t
    ensures FindReference(t + rest) == FindReference(rest)
  {
    if t == "" {
      assert t + rest == rest;
    } else {
      assert t[0] in t && (t + rest)[1..] == t[1..] + rest;
      SkipText(t[1..], rest);
    }
  }

  /** The leftmost match is the first reference. */
  lemma {:induction false} FindsFirst(ps: seq<Piece>)
    requires AllFormed(ps)
    ensures FindReference(Render(ps)) == if FirstRef(ps) == None then "" else Reference(FirstRef(ps).value)
    ensures FirstRef(ps).Some? ==> Formed(Ref(FirstRef(ps).value))
  {
    if ps != [] {
      assert ps[0] in ps;
      match ps[0]
      case Text(t) =>
        SkipText(t, Render(ps[1..]));
        FindsFirst(ps[1..]);
      case Ref(n) =>
        MatchReference(n, Render(ps[1..]));
    }
  }

  lemma {:induction false} CopyText(t: string, rest: string, old': string, new': string)
    requires '%' !in t && old' != "" && old'[0] == '%'
    ensures ReplaceAll(t + rest, old', new') == t + ReplaceAll(rest, old', new')
  {
    if t == "" {
      assert t + rest == rest;
    } else {
      assert t[0] in t && (t + rest)[0] == t[0] && (t + rest)[1..] == t[1..] + rest;
      CopyText(t[1..], rest, old', new');
    }
  }

  lemma {:induction false} RenderConcat(a: seq<Piece>, b: seq<Piece>)
    ensures Render(a + b) == Render(a) + Render(b)
  {
    if a == [] {
      assert a + b == b;
    } else {
      assert (a + b)[1..] == a[1..] + b;
      RenderConcat(a[1..], b);
    }
  }

  lemma ReplaceOther(m: string, n: string, rest: string, new': string)
    requires Formed(Ref(m)) && Formed(Ref(n)) && m != n
    ensures ReplaceAll(Reference(m) + rest, Reference(n), new') == Reference(m) + ReplaceAll(rest, Reference(n), new')
  {
    var s, tail := Reference(m) + rest, "(" + m + ")s";
    if Reference(n) <= s { SameReference(m, n, rest); }
    assert s[1..] == tail + rest && s[0] == '%';
    CopyText(tail, rest, Reference(n), new');
    assert [s[0]] + (tail + ReplaceAll(rest, Reference(n), new'))
        == Reference(m) + ReplaceAll(rest, Reference(n), new');
  }

  lemma ReplaceSame(n: string, rest: string, new': string)
    ensures ReplaceAll(Reference(n) + rest, Reference(n), new') == new' + ReplaceAll(rest, Reference(n), new')
  {
    assert (Reference(n) + rest)[|Reference(n)|..] == rest;
  }

  /** Replacing text replaces references, and nothing else. */
  lemma {:induction false} ReplacesPieces(ps: seq<Piece>, name: string, by': seq<Piece>)
    requires AllFormed(ps) && Formed(Ref(name))
    ensures ReplaceAll(Render(ps), Reference(name), Render(by')) == Render(Replaced(ps, name, by'))
  {
    if ps != [] {
      var rest := Render(ps[1..]);
      assert ps[0] in ps;
      ReplacesPieces(ps[1..], name, by');
      if ps[0] == Ref(name) {
        ReplaceSame(name, rest, Render(by'));
        RenderConcat(by', Replaced(ps[1..], name, by'));
      } else {
        RenderConcat([ps[0]], Replaced(ps[1..], name, by'));
        RenderOne(ps[0]);
        match ps[0]
        case Text(t) => CopyText(t, rest, Reference(name), Render(by'));
        case Ref(m) => ReplaceOther(m, name, rest, Render(by'));
      }
    }
  }

  lemma RenderOne(p: Piece)
    ensures Render([p]) == Shown(p)
  {
    assert [p][1..] == [] && Shown(p) + "" == Shown(p);
  }

  lemma {:induction false} ReplacedFormed(ps: seq<Piece>, name: string, by': seq<Piece>)
    requires AllFormed(ps) && AllFormed(by')
    ensures AllFormed(Replaced(ps, name, by'))
  {
    if ps != [] { ReplacedFormed(ps[1..], name, by'); }
  }

  // ---- The loop, on text and on pieces ----

  /** The substitution loop, whatever finds the values. */
  ghost function Loop(found: string -> Option<string>, value: string, rounds: nat): Option<string>
    decreases rounds
  {
    var r := FindReference(value);
    if rounds == 0 || r == "" then Some(value)
    else
      match found(Strip(r))
      case None => None
      case Some(v) => Loop(found, ReplaceAll(value, r, v), rounds - 1)
  }

  ghost function Finder(c: Config, section: string, depth: nat): string -> Option<string> {
    n => Referenced(c, section, n, depth)
  }

  lemma {:induction false} SubstitutedIsLoop(c: Config, section: string, value: string, rounds: nat, depth: nat)
    ensures Substituted(c, section, value, rounds, depth) == Loop(Finder(c, section, depth), value, rounds)
    decreases rounds
  {
    var r := FindReference(value);
    if rounds > 0 && r != "" {
      var got := Finder(c, section, depth)(Strip(r));
      if got.Some? { SubstitutedIsLoop(c, section, ReplaceAll(value, r, got.value), rounds - 1, depth); }
    }
  }

  ghost function Walk(found: string -> Option<seq<Piece>>, ps: seq<Piece>, rounds: nat): Option<seq<Piece>>
    decreases rounds
  {
    if rounds == 0 || FirstRef(ps) == None then Some(ps)
    else
      match found(FirstRef(ps).value)
      case None => None
      case Some(by') => Walk(found, Replaced(ps, FirstRef(ps).value, by'), rounds - 1)
  }

  ghost function Rendered(ps: Option<seq<Piece>>): Option<string> {
    if ps == None then None else Some(Render(ps.value))
  }

  ghost predicate NamesIn(ps: seq<Piece>, names: iset<string>) {
    forall n {:trigger Ref(n)} :: Ref(n) in ps ==> n in names
  }

  /** For these names, the text found and the pieces found are the same, and lead to these names only. */
  ghost predicate Agrees(text: string -> Option<string>, found: string -> Option<seq<Piece>>, names: iset<string>,
      n: string) {
    n in names ==>
      && text(n) == Rendered(found(n))
      && (found(n).Some? ==> AllFormed(found(n).value) && NamesIn(found(n).value, names))
  }

  ghost predicate Agree(text: string -> Option<string>, found: string -> Option<seq<Piece>>, names: iset<string>) {
    forall n {:trigger Agrees(text, found, names, n)} :: Agrees(text, found, names, n)
  }

  /** The loop on text does what the walk on pieces does. */
  lemma {:induction false} LoopIsWalk(text: string -> Option<string>, found: string -> Option<seq<Piece>>,
                                      names: iset<string>, ps: seq<Piece>, rounds: nat)
    requires AllFormed(ps) && NamesIn(ps, names) && Agree(text, found, names)
    ensures Loop(text, Render(ps), rounds) == Rendered(Walk(found, ps, rounds))
    decreases rounds
  {
    if rounds == 0 || FirstRef(ps) == None {
      FindsFirst(ps);
      NoRound(text, Render(ps), rounds);
    } else {
      OneRound(text, found, names, ps, rounds);
      var got := found(FirstRef(ps).value);
      if got.Some? {
        var qs := Replaced(ps, FirstRef(ps).value, got.value);
        LoopIsWalk(text, found, names, qs, rounds - 1);
      }
    }
  }

  lemma NoRound(found: string -> Option<string>, value: string, rounds: nat)
    requires rounds == 0 || FindReference(value) == ""
    ensures Loop(found, value, rounds) == Some(value)
  {
  }

  ghost predicate Kept(ps: seq<Piece>, names: iset<string>) {
    AllFormed(ps) && NamesIn(ps, names)
  }

  /** The walk stays within formed pieces and these names. */
  lemma {:induction false} WalkKeeps(
      found: string -> Option<seq<Piece>>, names: iset<string>, ps: seq<Piece>, rounds: nat)
    requires Kept(ps, names) && forall n :: n in names && found(n).Some? ==> Kept(found(n).value, names)
    ensures Walk(found, ps, rounds).Some? ==> Kept(Walk(found, ps, rounds).value, names)
    decreases rounds
  {
    if rounds > 0 && FirstRef(ps).Some? {
      var n := FirstRef(ps).value;
      FirstRefIn(ps);
      if found(n).Some? {
        ReplacedKept(ps, n, found(n).value, names);
        WalkKeeps(found, names, Replaced(ps, n, found(n).value), rounds - 1);
      }
    }
  }

  lemma ReplacedKept(ps: seq<Piece>, n: string, by': seq<Piece>, names: iset<string>)
    requires Kept(ps, names) && Kept(by', names)
    ensures Kept(Replaced(ps, n, by'), names)
  {
    ReplacedFormed(ps, n, by');
    NamesInReplaced(ps, n, by', names);
  }

  lemma OneRound(
      text: string -> Option<string>, found: string -> Option<seq<Piece>>, names: iset<string>, ps: seq<Piece>,
          rounds: nat)
    requires AllFormed(ps) && NamesIn(ps, names) && Agree(text, found, names) && rounds > 0 && FirstRef(ps).Some?
    ensures var got := found(FirstRef(ps).value);
            if got == None then Loop(text, Render(ps), rounds) == None && Walk(found, ps, rounds) == None
            else
              var qs := Replaced(ps, FirstRef(ps).value, got.value);
              && AllFormed(qs) && NamesIn(qs, names)
              && Loop(text, Render(ps), rounds) == Loop(text, Render(qs), rounds - 1)
              && Walk(found, ps, rounds) == Walk(found, qs, rounds - 1)
  {
    var n := FirstRef(ps).value;
    FirstRefIn(ps);
    assert Agrees(text, found, names, n);
    RoundIs(ps, []);
    if found(n).Some? {
      var by' := found(n).value;
      RoundIs(ps, by');
      NamesInReplaced(ps, n, by', names);
      LoopStep(text, Render(ps), Reference(n), Render(by'), Render(Replaced(ps, n, by')), rounds);
    }
  }

  lemma LoopStep(found: string -> Option<string>, value: string, r: string, v: string, next: string, rounds: nat)
    requires rounds > 0 && r != "" && FindReference(value) == r && found(Strip(r)) == Some(v)
    requires ReplaceAll(value, r, v) == next
    ensures Loop(found, value, rounds) == Loop(found, next, rounds - 1)
  {
  }

  lemma NamesInReplaced(ps: seq<Piece>, n: string, by': seq<Piece>, names: iset<string>)
    requires NamesIn(ps, names) && NamesIn(by', names)
    ensures NamesIn(Replaced(ps, n, by'), names)
  {
    forall m | Ref(m) in Replaced(ps, n, by') ensures m in names { ReplacedFrom(ps, n, by', Ref(m)); }
  }

  lemma {:induction false} ReplacedFrom(ps: seq<Piece>, n: string, by': seq<Piece>, p: Piece)
    requires p in Replaced(ps, n, by')
    ensures p in ps || p in by'
  {
    if p !in by' && p != ps[0] { ReplacedFrom(ps[1..], n, by', p); }
  }

  /** One round on text, with any formed pieces put in. */
  lemma RoundIs(ps: seq<Piece>, by': seq<Piece>)
    requires AllFormed(ps) && FirstRef(ps).Some?
    ensures var n := FirstRef(ps).value;
            && Ref(n) in ps && FindReference(Render(ps)) == Reference(n) && Strip(Reference(n)) == n
            && ReplaceAll(Render(ps), Reference(n), Render(by')) == Render(Replaced(ps, n, by'))
            && (AllFormed(by') ==> AllFormed(Replaced(ps, n, by')))
  {
    var n := FirstRef(ps).value;
    FindsFirst(ps);
    FirstRefIn(ps);
    assert Formed(Ref(n));
    StripGivesName(n);
    ReplacesPieces(ps, n, by');
    if AllFormed(by') { ReplacedFormed(ps, n, by'); }
  }

  lemma FirstRefIn(ps: seq<Piece>)
    ensures FirstRef(ps).Some? ==> Ref(FirstRef(ps).value) in ps
    ensures FirstRef(ps) == None ==> forall p :: p in ps ==> p.Text?
  {
    if ps != [] {
      FirstRefIn(ps[1..]);
      assert ps == [ps[0]] + ps[1..];
    }
  }

  // ---- The full substitution ----

  /** The default section and another one, as pieces, with ranks that show that no key refers to itself:
      own is empty when the section is the default one. */
  datatype Env = Env(
    defaults: map<string, seq<Piece>>, own: map<string, seq<Piece>>,
    defaultRank: map<string, nat>, ownRank: map<string, nat>)

  /** References that resolve have a rank below the bound; from outside, defaults are below everything. */
  ghost predicate Below(e: Env, inOwn: bool, ps: seq<Piece>, bound: nat) {
    forall n {:trigger Ref(n)} :: Ref(n) in ps ==>
      && (n in e.defaults && !inOwn ==> n in e.defaultRank && e.defaultRank[n] < bound)
      && (n !in e.defaults && inOwn && n in e.own ==> n in e.ownRank && e.ownRank[n] < bound)
  }

  ghost predicate Acyclic(e: Env) {
    && e.defaultRank.Keys == e.defaults.Keys && e.ownRank.Keys == e.own.Keys
    && (forall k :: k in e.defaults ==> AllFormed(e.defaults[k]) && Below(e, false, e.defaults[k], e.defaultRank[k]))
    && (forall k :: k in e.own ==> AllFormed(e.own[k]) && Below(e, true, e.own[k], e.ownRank[k]))
  }

  /** The value with every reference replaced by what it stands for, to the end. */
  ghost function Full(e: Env, inOwn: bool, ps: seq<Piece>, bound: nat): string
    requires Acyclic(e) && Below(e, inOwn, ps, bound)
    decreases inOwn, bound, |ps|, 1
  {
    if ps == [] then "" else Meaning(e, inOwn, ps[0], ps, bound) + Full(e, inOwn, ps[1..], bound)
  }

  ghost function Meaning(e: Env, inOwn: bool, p: Piece, ps: seq<Piece>, bound: nat): string
    requires Acyclic(e) && Below(e, inOwn, ps, bound) && p in ps
    decreases inOwn, bound, |ps|, 0
  {
    match p
    case Text(t) => t
    case Ref(n) =>
      if n in e.defaults then Full(e, false, e.defaults[n], e.defaultRank[n])
      else if inOwn && n in e.own then Full(e, true, e.own[n], e.ownRank[n])
      else ""
  }

  /** What one round puts in place of a reference. */
  ghost function By(e: Env, inOwn: bool, n: string): seq<Piece>
    requires Acyclic(e)
  {
    if n in e.defaults then [Text(Full(e, false, e.defaults[n], e.defaultRank[n]))]
    else if inOwn && n in e.own then e.own[n]
    else []
  }

  ghost function Reduced(e: Env, inOwn: bool, ps: seq<Piece>, rounds: nat): seq<Piece>
    requires Acyclic(e)
    decreases rounds
  {
    if rounds == 0 || FirstRef(ps) == None then ps
    else Reduced(e, inOwn, Replaced(ps, FirstRef(ps).value, By(e, inOwn, FirstRef(ps).value)), rounds - 1)
  }

  ghost predicate Settles(e: Env, inOwn: bool, ps: seq<Piece>, rounds: nat)
    requires Acyclic(e)
  {
    FirstRef(Reduced(e, inOwn, ps, rounds)) == None
  }

  lemma {:induction false} FullBound(e: Env, inOwn: bool, ps: seq<Piece>, b: nat, b': nat)
    requires Acyclic(e) && Below(e, inOwn, ps, b) && Below(e, inOwn, ps, b')
    ensures Full(e, inOwn, ps, b) == Full(e, inOwn, ps, b')
  {
    if ps != [] { FullBound(e, inOwn, ps[1..], b, b'); }
  }

  lemma {:induction false} FullConcat(e: Env, inOwn: bool, a: seq<Piece>, b: seq<Piece>, bound: nat)
    requires Acyclic(e) && Below(e, inOwn, a, bound) && Below(e, inOwn, b, bound) && Below(e, inOwn, a + b, bound)
    ensures Full(e, inOwn, a + b, bound) == Full(e, inOwn, a, bound) + Full(e, inOwn, b, bound)
  {
    if a == [] {
      assert a + b == b;
    } else {
      assert (a + b)[1..] == a[1..] + b && (a + b)[0] == a[0];
      FullConcat(e, inOwn, a[1..], b, bound);
    }
  }

  lemma {:induction false} FullHasNoPercent(e: Env, inOwn: bool, ps: seq<Piece>, bound: nat)
    requires Acyclic(e) && Below(e, inOwn, ps, bound) && AllFormed(ps)
    ensures '%' !in Full(e, inOwn, ps, bound)
    decreases inOwn, bound, |ps|
  {
    if ps != [] {
      assert ps[0] in ps;
      FullHasNoPercent(e, inOwn, ps[1..], bound);
      if ps[0].Ref? {
        var n := ps[0].name;
        if n in e.defaults {
          FullHasNoPercent(e, false, e.defaults[n], e.defaultRank[n]);
        } else if inOwn && n in e.own {
          FullHasNoPercent(e, true, e.own[n], e.ownRank[n]);
        }
      }
    }
  }

  lemma ByFormed(e: Env, inOwn: bool, n: string)
    requires Acyclic(e)
    ensures AllFormed(By(e, inOwn, n))
  {
    if n in e.defaults { FullHasNoPercent(e, false, e.defaults[n], e.defaultRank[n]); }
  }

  /** Putting in the pieces keeps the references ranked and the meaning as it is. */
  lemma {:induction false} ReplacedMeans(e: Env, inOwn: bool, ps: seq<Piece>, n: string, bound: nat)
    requires Acyclic(e) && Below(e, inOwn, ps, bound) && Below(e, inOwn, By(e, inOwn, n), bound)
    requires Full(e, inOwn, By(e, inOwn, n), bound)
            == if n in e.defaults then Full(e, false, e.defaults[n], e.defaultRank[n])
               else if inOwn && n in e.own then Full(e, true, e.own[n], e.ownRank[n])
               else ""
    ensures Below(e, inOwn, Replaced(ps, n, By(e, inOwn, n)), bound)
    ensures Full(e, inOwn, Replaced(ps, n, By(e, inOwn, n)), bound) == Full(e, inOwn, ps, bound)
  {
    if ps != [] {
      var rest := Replaced(ps[1..], n, By(e, inOwn, n));
      ReplacedMeans(e, inOwn, ps[1..], n, bound);
      var front := if ps[0] == Ref(n) then By(e, inOwn, n) else [ps[0]];
      FullConcat(e, inOwn, front, rest, bound);
      if ps[0] != Ref(n) { FullOne(e, inOwn, ps, bound); }
    }
  }

  lemma FullOne(e: Env, inOwn: bool, ps: seq<Piece>, bound: nat)
    requires Acyclic(e) && Below(e, inOwn, ps, bound) && ps != []
    ensures Below(e, inOwn, [ps[0]], bound) && Full(e, inOwn, [ps[0]], bound) == Meaning(e, inOwn, ps[0], ps, bound)
  {
    var one := [ps[0]];
    assert one[1..] == [];
    assert Full(e, inOwn, one, bound) == Meaning(e, inOwn, ps[0], one, bound) + "";
  }

  lemma ByMeans(e: Env, inOwn: bool, ps: seq<Piece>, n: string, bound: nat)
    requires Acyclic(e) && Below(e, inOwn, ps, bound) && Ref(n) in ps
    ensures Below(e, inOwn, By(e, inOwn, n), bound)
    ensures Full(e, inOwn, By(e, inOwn, n), bound)
            == if n in e.defaults then Full(e, false, e.defaults[n], e.defaultRank[n])
               else if inOwn && n in e.own then Full(e, true, e.own[n], e.ownRank[n])
               else ""
  {
    if n in e.defaults {
      var by' := By(e, inOwn, n);
      assert by'[1..] == [];
      assert Full(e, inOwn, by', bound) == by'[0].text + "";
    } else if inOwn && n in e.own {
      forall m | Ref(m) in e.own[n]
        ensures m !in e.defaults && m in e.own ==> m in e.ownRank && e.ownRank[m] < bound
      {
      }
      FullBound(e, true, e.own[n], bound, e.ownRank[n]);
    }
  }

  /** Rounds of substitution do not change what a value means. */
  lemma {:induction false} ReducedMeans(e: Env, inOwn: bool, ps: seq<Piece>, rounds: nat, bound: nat)
    requires Acyclic(e) && Below(e, inOwn, ps, bound) && AllFormed(ps)
    ensures AllFormed(Reduced(e, inOwn, ps, rounds)) && Below(e, inOwn, Reduced(e, inOwn, ps, rounds), bound)
    ensures Full(e, inOwn, Reduced(e, inOwn, ps, rounds), bound) == Full(e, inOwn, ps, bound)
    decreases rounds
  {
    if rounds > 0 && FirstRef(ps).Some? {
      var n := FirstRef(ps).value;
      FirstRefIn(ps);
      ByMeans(e, inOwn, ps, n, bound);
      ReplacedMeans(e, inOwn, ps, n, bound);
      ByFormed(e, inOwn, n);
      ReplacedFormed(ps, n, By(e, inOwn, n));
      ReducedMeans(e, inOwn, Replaced(ps, n, By(e, inOwn, n)), rounds - 1, bound);
    }
  }

  /** Without references, a value is its own full substitution. */
  lemma {:induction false} TextMeansItself(e: Env, inOwn: bool, ps: seq<Piece>, bound: nat)
    requires Acyclic(e) && Below(e, inOwn, ps, bound) && FirstRef(ps) == None
    ensures Full(e, inOwn, ps, bound) == Render(ps)
  {
    if ps != [] { TextMeansItself(e, inOwn, ps[1..], bound); }
  }

  lemma {:induction false} ReferenceShows(ps: seq<Piece>)
    requires FirstRef(ps).Some?
    ensures '%' in Render(ps)
  {
    if ps[0].Ref? {
      assert Render(ps)[0] == '%';
    } else {
      ReferenceShows(ps[1..]);
    }
  }

  /** A value is fully substituted exactly if the rounds were enough. */
  lemma SettledIsFull(e: Env, inOwn: bool, ps: seq<Piece>, rounds: nat, bound: nat)
    requires Acyclic(e) && Below(e, inOwn, ps, bound) && AllFormed(ps)
    ensures Render(Reduced(e, inOwn, ps, rounds)) == Full(e, inOwn, ps, bound) <==> Settles(e, inOwn, ps, rounds)
    ensures '%' !in Full(e, inOwn, ps, bound)
  {
    ReducedMeans(e, inOwn, ps, rounds, bound);
    FullHasNoPercent(e, inOwn, ps, bound);
    var qs := Reduced(e, inOwn, ps, rounds);
    if FirstRef(qs) == None {
      TextMeansItself(e, inOwn, qs, bound);
    } else {
      ReferenceShows(qs);
    }
  }

  // ---- How many rounds are enough ----

  function Names(ps: seq<Piece>): set<string> {
    set p | p in ps && p.Ref? :: p.name
  }

  lemma NamesOfReplaced(ps: seq<Piece>, n: string, by': seq<Piece>)
    requires Ref(n) in ps && forall p :: p in by' ==> p.Text?
    ensures Names(Replaced(ps, n, by')) == Names(ps) - {n}
    ensures |Names(Replaced(ps, n, by'))| == |Names(ps)| - 1
  {
    forall m ensures Ref(m) in Replaced(ps, n, by') <==> Ref(m) in ps && m != n { ReplacedRefs(ps, n, by', m); }
    assert n in Names(ps);
  }

  lemma {:induction false} ReplacedRefs(ps: seq<Piece>, n: string, by': seq<Piece>, m: string)
    requires forall p :: p in by' ==> p.Text?
    ensures Ref(m) in Replaced(ps, n, by') <==> Ref(m) in ps && m != n
  {
    if ps != [] {
      ReplacedRefs(ps[1..], n, by', m);
      assert ps == [ps[0]] + ps[1..];
    }
  }

  lemma NoNames(ps: seq<Piece>)
    ensures FirstRef(ps) == None <==> Names(ps) == {}
  {
    FirstRefIn(ps);
    if FirstRef(ps).Some? { assert FirstRef(ps).value in Names(ps); }
  }

  /** A default value needs one round for each name in it. */
  lemma {:induction false} DefaultSettlesIff(e: Env, ps: seq<Piece>, rounds: nat)
    requires Acyclic(e)
    ensures Settles(e, false, ps, rounds) <==> |Names(ps)| <= rounds
    decreases rounds
  {
    NoNames(ps);
    if rounds > 0 && FirstRef(ps).Some? {
      var n := FirstRef(ps).value;
      FirstRefIn(ps);
      NamesOfReplaced(ps, n, By(e, false, n));
      DefaultSettlesIff(e, Replaced(ps, n, By(e, false, n)), rounds - 1);
    }
  }

  /** The references to the end, one by one: the rounds that are always enough for an own value. */
  ghost function Weight(e: Env, ps: seq<Piece>, bound: nat): nat
    requires Acyclic(e) && Below(e, true, ps, bound)
    decreases bound, |ps|, 1
  {
    if ps == [] then 0 else PieceWeight(e, ps[0], ps, bound) + Weight(e, ps[1..], bound)
  }

  ghost function PieceWeight(e: Env, p: Piece, ps: seq<Piece>, bound: nat): nat
    requires Acyclic(e) && Below(e, true, ps, bound) && p in ps
    decreases bound, |ps|, 0
  {
    if p.Text? then 0
    else if p.name !in e.defaults && p.name in e.own then 1 + Weight(e, e.own[p.name], e.ownRank[p.name])
    else 1
  }

  /** The names that are met on the way: the rounds that are always needed. */
  ghost function Met(e: Env, ps: seq<Piece>, bound: nat): set<string>
    requires Acyclic(e) && Below(e, true, ps, bound)
    decreases bound, |ps|, 1
  {
    if ps == [] then {} else PieceMet(e, ps[0], ps, bound) + Met(e, ps[1..], bound)
  }

  ghost function PieceMet(e: Env, p: Piece, ps: seq<Piece>, bound: nat): set<string>
    requires Acyclic(e) && Below(e, true, ps, bound) && p in ps
    decreases bound, |ps|, 0
  {
    if p.Text? then {}
    else if p.name !in e.defaults && p.name in e.own then {p.name} + Met(e, e.own[p.name], e.ownRank[p.name])
    else {p.name}
  }

  lemma {:induction false} TreeBound(e: Env, ps: seq<Piece>, b: nat, b': nat)
    requires Acyclic(e) && Below(e, true, ps, b) && Below(e, true, ps, b')
    ensures Weight(e, ps, b) == Weight(e, ps, b') && Met(e, ps, b) == Met(e, ps, b')
  {
    if ps != [] { TreeBound(e, ps[1..], b, b'); }
  }

  lemma {:induction false} TreeConcat(e: Env, a: seq<Piece>, b: seq<Piece>, bound: nat)
    requires Acyclic(e) && Below(e, true, a, bound) && Below(e, true, b, bound) && Below(e, true, a + b, bound)
    ensures Weight(e, a + b, bound) == Weight(e, a, bound) + Weight(e, b, bound)
    ensures Met(e, a + b, bound) == Met(e, a, bound) + Met(e, b, bound)
  {
    if a == [] {
      assert a + b == b;
    } else {
      assert (a + b)[1..] == a[1..] + b && (a + b)[0] == a[0];
      TreeConcat(e, a[1..], b, bound);
    }
  }

  lemma TreeOne(e: Env, ps: seq<Piece>, bound: nat)
    requires Acyclic(e) && Below(e, true, ps, bound) && ps != []
    ensures Below(e, true, [ps[0]], bound)
    ensures Weight(e, [ps[0]], bound) == PieceWeight(e, ps[0], ps, bound)
    ensures Met(e, [ps[0]], bound) == PieceMet(e, ps[0], ps, bound)
  {
    assert [ps[0]][1..] == [];
    assert Weight(e, [ps[0]], bound) == PieceWeight(e, ps[0], [ps[0]], bound) + Weight(e, [], bound);
    assert Met(e, [ps[0]], bound) == PieceMet(e, ps[0], [ps[0]], bound) + Met(e, [], bound);
  }

  /** What is put in weighs one less than the reference, and meets all it met but itself. */
  lemma TreeBy(e: Env, ps: seq<Piece>, n: string, bound: nat)
    requires Acyclic(e) && Below(e, true, ps, bound) && Ref(n) in ps
    ensures Below(e, true, By(e, true, n), bound)
    ensures PieceWeight(e, Ref(n), ps, bound) == 1 + Weight(e, By(e, true, n), bound)
    ensures PieceMet(e, Ref(n), ps, bound) == {n} + Met(e, By(e, true, n), bound)
  {
    ByMeans(e, true, ps, n, bound);
    var by' := By(e, true, n);
    if n !in e.defaults && n in e.own {
      TreeBound(e, by', bound, e.ownRank[n]);
    } else if n in e.defaults {
      TreeOne(e, by', bound);
    }
  }

  /** A round takes at least one off the weight, and at most the name itself off those met. */
  lemma {:induction false} TreeReplaced(e: Env, ps: seq<Piece>, all: seq<Piece>, n: string, bound: nat)
    requires Acyclic(e) && Below(e, true, ps, bound) && Below(e, true, all, bound) && Ref(n) in all
    requires Below(e, true, Replaced(ps, n, By(e, true, n)), bound)
    ensures Weight(e, Replaced(ps, n, By(e, true, n)), bound) + (if Ref(n) in ps then 1 else 0) <= Weight(e, ps, bound)
    ensures Met(e, ps, bound) <= {n} + Met(e, Replaced(ps, n, By(e, true, n)), bound)
    decreases |ps|
  {
    if ps != [] {
      var by' := By(e, true, n);
      var rest := Replaced(ps[1..], n, by');
      var front := if ps[0] == Ref(n) then by' else [ps[0]];
      assert Replaced(ps, n, by') == front + rest;
      forall m | Ref(m) in rest || Ref(m) in front ensures Ref(m) in Replaced(ps, n, by') {}
      TreeReplaced(e, ps[1..], all, n, bound);
      TreeConcat(e, front, rest, bound);
      if ps[0] == Ref(n) { TreeBy(e, ps, n, bound); } else { TreeOne(e, ps, bound); }
      assert Ref(n) in ps ==> Ref(n) == ps[0] || Ref(n) in ps[1..];
    }
  }

  /** An own value settles if its weight is within the rounds, and only if the names it meets are. */
  lemma {:induction false} OwnSettles(e: Env, ps: seq<Piece>, rounds: nat, bound: nat)
    requires Acyclic(e) && Below(e, true, ps, bound) && AllFormed(ps)
    ensures Weight(e, ps, bound) <= rounds ==> Settles(e, true, ps, rounds)
    ensures Settles(e, true, ps, rounds) ==> |Met(e, ps, bound)| <= rounds
    decreases rounds
  {
    NoNames(ps);
    if FirstRef(ps) == None {
      NothingMet(e, ps, bound);
    } else {
      var n := FirstRef(ps).value;
      FirstRefIn(ps);
      var qs := Replaced(ps, n, By(e, true, n));
      ByMeans(e, true, ps, n, bound);
      ReplacedMeans(e, true, ps, n, bound);
      TreeReplaced(e, ps, ps, n, bound);
      if rounds > 0 {
        ByFormed(e, true, n);
        ReplacedFormed(ps, n, By(e, true, n));
        OwnSettles(e, qs, rounds - 1, bound);
        MoreMet(Met(e, ps, bound), n, Met(e, qs, bound));
      }
    }
  }

  lemma MoreMet(before: set<string>, n: string, after: set<string>)
    requires before <= {n} + after
    ensures |before| <= 1 + |after|
  {
    var some := before - {n};
    Subset(some, after);
    assert before <= some + {n};
    Subset(before, some + {n});
  }

  lemma {:induction false} Subset<T>(a: set<T>, b: set<T>)
    requires a <= b
    ensures |a| <= |b|
  {
    if x :| x in a { Subset(a - {x}, b - {x}); }
  }

  lemma {:induction false} NothingMet(e: Env, ps: seq<Piece>, bound: nat)
    requires Acyclic(e) && Below(e, true, ps, bound) && FirstRef(ps) == None
    ensures Met(e, ps, bound) == {}
  {
    if ps != [] { NothingMet(e, ps[1..], bound); }
  }

  // ---- GetValue computes it ----

  ghost predicate Holds(c: Config, section: string, pieces: map<string, seq<Piece>>) {
    forall k {:trigger KeyHolds(c, section, pieces, k)} :: KeyHolds(c, section, pieces, k)
  }

  ghost predicate KeyHolds(c: Config, section: string, pieces: map<string, seq<Piece>>, k: string) {
    (k in pieces <==> Has(c, section, k)) && (k in pieces ==> Get(c, section, k) == Render(pieces[k]))
  }

  /** The environment describes the configuration, as seen from the section. */
  ghost predicate Describes(e: Env, c: Config, section: string) {
    && Acyclic(e) && section != "" && Holds(c, DEFAULT_SECTION, e.defaults)
    && (if section == DEFAULT_SECTION then e.own == map[] else section in c.data && Holds(c, section, e.own))
  }

  /** Every default value that the pieces lead to has at most as many names as GetValue makes rounds. */
  ghost predicate Modest(e: Env, inOwn: bool, ps: seq<Piece>, bound: nat)
    requires Acyclic(e) && Below(e, inOwn, ps, bound)
    decreases inOwn, bound
  {
    forall n {:trigger Ref(n)} :: Ref(n) in ps ==>
      && (n in e.defaults ==>
            |Names(e.defaults[n])| <= DEPTH_VALUES && Modest(e, false, e.defaults[n], e.defaultRank[n]))
      && (n !in e.defaults && inOwn && n in e.own ==> Modest(e, true, e.own[n], e.ownRank[n]))
  }

  /** Where a value is read: in the own section or in the default one. */
  function Place(section: string, inOwn: bool): string {
    if inOwn then section else DEFAULT_SECTION
  }

  /** From outside, the recursion may go as deep as any default value needs. */
  ghost predicate Deep(e: Env, inOwn: bool, depth: nat)
    requires Acyclic(e)
  {
    inOwn ==> forall n :: n in e.defaults ==> e.defaultRank[n] + 1 < depth
  }

  /** Names whose values, and those they lead to, are described. */
  ghost function Known(e: Env, inOwn: bool): iset<string>
    requires Acyclic(e)
  {
    iset n | (n in e.defaults ==>
                |Names(e.defaults[n])| <= DEPTH_VALUES && Modest(e, false, e.defaults[n], e.defaultRank[n]))
             && (n !in e.defaults && inOwn && n in e.own ==> Modest(e, true, e.own[n], e.ownRank[n]))
  }

  /** Those that lie below the depth. */
  ghost function Shallow(e: Env, inOwn: bool, depth: nat): iset<string>
    requires Acyclic(e)
  {
    iset n | n in Known(e, inOwn) && (n in e.defaults ==> e.defaultRank[n] + 1 < depth)
  }

  ghost function Bys(e: Env, inOwn: bool): string -> Option<seq<Piece>>
    requires Acyclic(e)
  {
    n => if Acyclic(e) then Some(By(e, inOwn, n)) else None
  }

  lemma {:induction false} WalkIsReduced(e: Env, inOwn: bool, ps: seq<Piece>, rounds: nat)
    requires Acyclic(e)
    ensures Walk(Bys(e, inOwn), ps, rounds) == Some(Reduced(e, inOwn, ps, rounds))
    decreases rounds
  {
    if rounds > 0 && FirstRef(ps).Some? {
      var n := FirstRef(ps).value;
      WalkIsReduced(e, inOwn, Replaced(ps, n, By(e, inOwn, n)), rounds - 1);
    }
  }

  /** The loop on text does what the rounds on pieces do. */
  lemma SubstitutedIs(e: Env, c: Config, section: string, inOwn: bool, ps: seq<Piece>, rounds: nat, depth: nat)
    requires Describes(e, c, section) && depth > 0 && (inOwn ==> section != DEFAULT_SECTION) && Deep(e, inOwn, depth)
    requires AllFormed(ps) && NamesIn(ps, Shallow(e, inOwn, depth))
    ensures Substituted(c, Place(section, inOwn), Render(ps), rounds, depth)
            == Some(Render(Reduced(e, inOwn, ps, rounds)))
    decreases depth, 2
  {
    var place := Place(section, inOwn);
    FindersAgree(e, c, section, inOwn, depth);
    LoopIsWalk(Finder(c, place, depth), Bys(e, inOwn), Shallow(e, inOwn, depth), ps, rounds);
    SubstitutedIsLoop(c, place, Render(ps), rounds, depth);
    WalkIsReduced(e, inOwn, ps, rounds);
  }

  lemma FindersAgree(e: Env, c: Config, section: string, inOwn: bool, depth: nat)
    requires Describes(e, c, section) && depth > 0 && (inOwn ==> section != DEFAULT_SECTION) && Deep(e, inOwn, depth)
    ensures Agree(Finder(c, Place(section, inOwn), depth), Bys(e, inOwn), Shallow(e, inOwn, depth))
    decreases depth, 1
  {
    var names := Shallow(e, inOwn, depth);
    forall n ensures Agrees(Finder(c, Place(section, inOwn), depth), Bys(e, inOwn), names, n) {
      if n in names {
        ReferencedIs(e, c, section, inOwn, n, depth);
        ByFormed(e, inOwn, n);
        ByShallow(e, inOwn, n, depth);
      }
    }
  }

  lemma ByShallow(e: Env, inOwn: bool, n: string, depth: nat)
    requires Acyclic(e) && n in Shallow(e, inOwn, depth) && Deep(e, inOwn, depth)
    ensures NamesIn(By(e, inOwn, n), Shallow(e, inOwn, depth))
  {
    if n !in e.defaults && inOwn && n in e.own {
      assert Modest(e, true, e.own[n], e.ownRank[n]);
      forall m | Ref(m) in e.own[n] ensures m in Shallow(e, inOwn, depth) {}
    }
  }

  lemma DefaultValue(e: Env, c: Config, section: string, n: string, depth: nat)
    requires Describes(e, c, section) && n in e.defaults && e.defaultRank[n] < depth
    requires |Names(e.defaults[n])| <= DEPTH_VALUES && Modest(e, false, e.defaults[n], e.defaultRank[n])
    ensures GetValue(c, DEFAULT_SECTION, n, depth) == Some(Value(Full(e, false, e.defaults[n], e.defaultRank[n])))
    decreases depth, 3
  {
    var ps, rank := e.defaults[n], e.defaultRank[n];
    BelowIsShallow(e, ps, rank, depth);
    SubstitutedIs(e, c, section, false, ps, DEPTH_VALUES, depth);
    SettledIsFull(e, false, ps, DEPTH_VALUES, rank);
    DefaultSettlesIff(e, ps, DEPTH_VALUES);
    assert KeyHolds(c, DEFAULT_SECTION, e.defaults, n);
    ReadsFrom(c, n, depth);
  }

  lemma BelowIsShallow(e: Env, ps: seq<Piece>, bound: nat, depth: nat)
    requires Acyclic(e) && Below(e, false, ps, bound) && Modest(e, false, ps, bound) && bound < depth
    ensures NamesIn(ps, Shallow(e, false, depth))
  {
  }

  lemma ReadsFrom(c: Config, n: string, depth: nat)
    requires Has(c, DEFAULT_SECTION, n)
    ensures GetValue(c, DEFAULT_SECTION, n, depth)
            == match Substituted(c, DEFAULT_SECTION, Get(c, DEFAULT_SECTION, n), DEPTH_VALUES, depth)
               case None => None
               case Some(v) => Some(Value(v))
  {
  }

  lemma NotDefault(c: Config, n: string, depth: nat)
    requires !Has(c, DEFAULT_SECTION, n)
    ensures GetValue(c, DEFAULT_SECTION, n, depth).Some? && !GetValue(c, DEFAULT_SECTION, n, depth).value.Value?
  {
    assert LastIndex("DEFAULT", ".") == -1 by { NoDot("DEFAULT"); }
  }

  lemma {:induction false} NoDot(s: string)
    requires '.' !in s
    ensures LastIndex(s, ".") == -1
  {
    if s != "" {
      assert s[|s| - 1] in s;
      NoDot(s[..|s| - 1]);
    }
  }

  lemma ReferencedIs(e: Env, c: Config, section: string, inOwn: bool, n: string, depth: nat)
    requires Describes(e, c, section) && depth > 0 && n in Shallow(e, inOwn, depth)
    requires inOwn ==> section != DEFAULT_SECTION
    ensures Referenced(c, Place(section, inOwn), n, depth) == Some(Render(By(e, inOwn, n)))
    decreases depth, 0
  {
    if n in e.defaults {
      var v := Full(e, false, e.defaults[n], e.defaultRank[n]);
      DefaultValue(e, c, section, n, depth - 1);
      FromDefault(c, Place(section, inOwn), n, depth, v);
      RenderOne(Text(v));
    } else {
      OtherIs(e, c, section, inOwn, n, depth);
    }
  }

  lemma OtherIs(e: Env, c: Config, section: string, inOwn: bool, n: string, depth: nat)
    requires Describes(e, c, section) && depth > 0 && n !in e.defaults && (inOwn ==> section != DEFAULT_SECTION)
    ensures Referenced(c, Place(section, inOwn), n, depth) == Some(Render(By(e, inOwn, n)))
  {
    assert KeyHolds(c, DEFAULT_SECTION, e.defaults, n);
    FromOwn(c, Place(section, inOwn), n, depth);
    OwnReference(e, c, section, inOwn, n);
  }

  lemma FromDefault(c: Config, section: string, n: string, depth: nat, v: string)
    requires depth > 0 && GetValue(c, DEFAULT_SECTION, n, depth - 1) == Some(Value(v))
    ensures Referenced(c, section, n, depth) == Some(v)
  {
  }

  lemma FromOwn(c: Config, section: string, n: string, depth: nat)
    requires depth > 0 && !Has(c, DEFAULT_SECTION, n)
    ensures Referenced(c, section, n, depth)
            == Some(if section != DEFAULT_SECTION && section in c.data && n in c.data[section] then c.data[section][n]
                else "")
  {
    NotDefault(c, n, depth - 1);
  }

  lemma OwnReference(e: Env, c: Config, section: string, inOwn: bool, n: string)
    requires Describes(e, c, section) && n !in e.defaults && (inOwn ==> section != DEFAULT_SECTION)
    ensures var s := Place(section, inOwn);
            Render(By(e, inOwn, n)) == if s != DEFAULT_SECTION && s in c.data && n in c.data[s] then c.data[s][n]
                else ""
  {
    if inOwn {
      assert Name(section) == section;
      assert KeyHolds(c, section, e.own, n);
    }
  }

  lemma SubstitutedStep(c: Config, section: string, value: string, r: string, v: string, next: string, rounds: nat,
      depth: nat)
    requires rounds > 0 && r != "" && FindReference(value) == r && Referenced(c, section, Strip(r), depth) == Some(v)
    requires ReplaceAll(value, r, v) == next
    ensures Substituted(c, section, value, rounds, depth) == Substituted(c, section, next, rounds - 1, depth)
  {
  }

  /** A value of the default section is returned fully substituted, with no reference left, exactly if it names
      at most 200 different keys. */
  lemma DefaultIsFull(e: Env, c: Config, key: string, depth: nat)
    requires Describes(e, c, DEFAULT_SECTION) && key in e.defaults && e.defaultRank[key] < depth
    requires Modest(e, false, e.defaults[key], e.defaultRank[key])
    ensures GetValue(c, DEFAULT_SECTION, key, depth) == Some(Value(Full(e, false, e.defaults[key], e.defaultRank[key])))
            <==> |Names(e.defaults[key])| <= 200
    ensures '%' !in Full(e, false, e.defaults[key], e.defaultRank[key])
  {
    var ps, rank := e.defaults[key], e.defaultRank[key];
    BelowIsShallow(e, ps, rank, depth);
    SubstitutedIs(e, c, DEFAULT_SECTION, false, ps, DEPTH_VALUES, depth);
    SettledIsFull(e, false, ps, DEPTH_VALUES, rank);
    DefaultSettlesIff(e, ps, DEPTH_VALUES);
    assert KeyHolds(c, DEFAULT_SECTION, e.defaults, key);
    ReadsFrom(c, key, depth);
  }

  /** A value of another section is returned fully substituted if it takes at most 200 references to spell out,
      and only if at most 200 different names are met on the way. */
  lemma OwnIsFull(e: Env, c: Config, section: string, key: string, depth: nat)
    requires Describes(e, c, section) && section != DEFAULT_SECTION && key in e.own
    requires depth > 0 && Deep(e, true, depth) && Modest(e, true, e.own[key], e.ownRank[key])
    ensures var full := Some(Value(Full(e, true, e.own[key], e.ownRank[key])));
            && (GetValue(c, section, key, depth) == full <==> Settles(e, true, e.own[key], 200))
            && (Weight(e, e.own[key], e.ownRank[key]) <= 200 ==> GetValue(c, section, key, depth) == full)
            && (GetValue(c, section, key, depth) == full ==> |Met(e, e.own[key], e.ownRank[key])| <= 200)
    ensures '%' !in Full(e, true, e.own[key], e.ownRank[key])
  {
    var ps, rank := e.own[key], e.ownRank[key];
    assert KeyHolds(c, section, e.own, key);
    assert NamesIn(ps, Shallow(e, true, depth));
    SubstitutedIs(e, c, section, true, ps, DEPTH_VALUES, depth);
    SettledIsFull(e, true, ps, DEPTH_VALUES, rank);
    OwnSettles(e, ps, DEPTH_VALUES, rank);
  }

  // ---- Termination ----

  ghost function NamesBelow(e: Env, bound: nat): iset<string> {
    iset n | n in e.defaults ==> n in e.defaultRank && e.defaultRank[n] < bound
  }

  ghost predicate Finds(c: Config, n: string, depth: nat, names: iset<string>, by': seq<Piece>) {
    AllFormed(by') && NamesIn(by', names) && Referenced(c, DEFAULT_SECTION, n, depth) == Some(Render(by'))
  }

  ghost function Choice(c: Config, depth: nat, names: iset<string>): string -> Option<seq<Piece>> {
    n =>
      if exists by' :: Finds(c, n, depth, names, by') then var by' :| Finds(c, n, depth, names, by'); Some(by')
      else None
  }

  lemma {:induction false} WalkEnds(found: string -> Option<seq<Piece>>, names: iset<string>, ps: seq<Piece>,
      rounds: nat)
    requires NamesIn(ps, names)
    requires forall n :: n in names ==> found(n).Some? && NamesIn(found(n).value, names)
    ensures Walk(found, ps, rounds).Some?
    decreases rounds
  {
    FirstRefIn(ps);
    if rounds > 0 && FirstRef(ps).Some? {
      var n := FirstRef(ps).value;
      NamesInReplaced(ps, n, found(n).value, names);
      WalkEnds(found, names, Replaced(ps, n, found(n).value), rounds - 1);
    }
  }

  /** Without cycles among the default values, reading one ends, however many names it has: the result is again
      made of formed pieces, with references below the key's own rank. */
  lemma DefaultEnds(e: Env, c: Config, key: string, depth: nat) returns (result: seq<Piece>)
    requires Acyclic(e) && Holds(c, DEFAULT_SECTION, e.defaults) && key in e.defaults && e.defaultRank[key] < depth
    ensures AllFormed(result) && Below(e, false, result, e.defaultRank[key])
    ensures GetValue(c, DEFAULT_SECTION, key, depth) == Some(Value(Render(result)))
    decreases depth, 1
  {
    var ps, bound := e.defaults[key], e.defaultRank[key];
    var names := NamesBelow(e, bound);
    var text, found := Finder(c, DEFAULT_SECTION, depth), Choice(c, depth, names);
    forall n | n in names ensures exists by' :: Finds(c, n, depth, names, by') {
      var by' := ReferenceIsFound(e, c, n, depth, bound);
      assert Finds(c, n, depth, names, by');
    }
    forall n ensures Agrees(text, found, names, n) {}
    forall n | n in names && found(n).Some? ensures Kept(found(n).value, names) {}
    WalkEnds(found, names, ps, DEPTH_VALUES);
    LoopIsWalk(text, found, names, ps, DEPTH_VALUES);
    WalkKeeps(found, names, ps, DEPTH_VALUES);
    SubstitutedIsLoop(c, DEFAULT_SECTION, Render(ps), DEPTH_VALUES, depth);
    result := Walk(found, ps, DEPTH_VALUES).value;
    assert KeyHolds(c, DEFAULT_SECTION, e.defaults, key);
    ReadsFrom(c, key, depth);
  }

  lemma ReferenceIsFound(e: Env, c: Config, n: string, depth: nat, bound: nat) returns (by': seq<Piece>)
    requires Acyclic(e) && Holds(c, DEFAULT_SECTION, e.defaults) && bound < depth && n in NamesBelow(e, bound)
    ensures Finds(c, n, depth, NamesBelow(e, bound), by')
    decreases depth, 0
  {
    by' := [];
    if n in e.defaults {
      by' := DefaultEnds(e, c, n, depth - 1);
      FromDefault(c, DEFAULT_SECTION, n, depth, Render(by'));
    } else {
      assert KeyHolds(c, DEFAULT_SECTION, e.defaults, n);
      FromOwn(c, DEFAULT_SECTION, n, depth);
    }
  }

  /** Values of other sections always end: the loop is bounded, and it recurses into default values only. */
  lemma OwnEnds(e: Env, c: Config, section: string, value: string, rounds: nat, depth: nat)
    requires forall n :: Has(c, DEFAULT_SECTION, n) ==> GetValue(c, DEFAULT_SECTION, n, depth).Some?
    ensures Substituted(c, section, value, rounds, depth + 1).Some?
    decreases rounds
  {
    var r := FindReference(value);
    if rounds > 0 && r != "" {
      var n := Strip(r);
      if !Has(c, DEFAULT_SECTION, n) { NotDefault(c, n, depth); }
      var v := Referenced(c, section, n, depth + 1).value;
      OwnEnds(e, c, section, ReplaceAll(value, r, v), rounds - 1, depth);
    }
  }

  // ---- Dotted parents ----

  /** The section name k steps up. */
  function Ancestor(section: string, k: nat): string {
    if k == 0 || LastIndex(section, ".") == -1 then section else Ancestor(section[..LastIndex(section, ".")], k - 1)
  }

  /** A key missing from a section is looked up in the nearest parent that has it, as long as every
      section on the way exists. */
  lemma {:induction false} FallsBack(c: Config, section: string, key: string, k: nat, depth: nat)
    requires forall i :: 0 <= i < k ==> Name(Ancestor(section, i)) in c.data && !Has(c, Ancestor(section, i), key)
                                        && LastIndex(Ancestor(section, i), ".") > -1
    ensures GetValue(c, section, key, depth) == GetValue(c, Ancestor(section, k), key, depth)
    decreases k
  {
    if k > 0 {
      assert Ancestor(section, 0) == section;
      var parent := section[..LastIndex(section, ".")];
      forall i | 0 <= i < k - 1 ensures Ancestor(parent, i) == Ancestor(section, i + 1) {}
      FallsBack(c, parent, key, k - 1, depth);
    }
  }

  /** A missing section on the way, or the end of it, is an error that names what is missing. */
  lemma FallbackEnds(c: Config, section: string, key: string, depth: nat)
    ensures Name(section) !in c.data ==> GetValue(c, section, key, depth) == Some(SectionNotFound(Name(section)))
    ensures Name(section) in c.data && !Has(c, section, key) && '.' !in section ==>
              GetValue(c, section, key, depth) == Some(KeyNotFound(key))
  {
    if '.' !in section { NoDot(section); }
  }

  // ---- The program ----

  /** It ends where the recursion does. */
  method ReadValue(c: ConfigFile, section: string, key: string, ghost depth: nat) returns (got: Got)
    requires GetValue(c.View(), section, key, depth).Some?
    ensures Some(got) == GetValue(c.View(), section, key, depth)
    decreases depth, |section| + 1
  {
    var s := Name(section);
    if s !in c.data {
      return SectionNotFound(s);
    }
    if key !in c.data[s] {
      var dot := LastIndex(section, ".");
      if dot > -1 {
        got := ReadValue(c, section[..dot], key, depth);
        return;
      }
      return KeyNotFound(key);
    }
    var value := c.data[s][key];
    var i := 0;
    while i < DEPTH_VALUES
      invariant i <= DEPTH_VALUES
      invariant Substituted(c.View(), s, value, DEPTH_VALUES - i, depth).Some?
      invariant Substituted(c.View(), s, value, DEPTH_VALUES - i, depth)
              == Substituted(c.View(), s, c.data[s][key], DEPTH_VALUES, depth)
    {
      var r := FindReference(value);
      if r == "" {
        break;
      }
      var replacement := ReadReference(c, s, Strip(r), depth);
      var next := ReplaceAll(value, r, replacement);
      SubstitutedStep(c.View(), s, value, r, replacement, next, DEPTH_VALUES - i, depth);
      value := next;
      i := i + 1;
    }
    got := Value(value);
  }

  method ReadReference(c: ConfigFile, section: string, name: string, ghost depth: nat) returns (v: string)
    requires Referenced(c.View(), section, name, depth).Some?
    ensures Some(v) == Referenced(c.View(), section, name, depth)
    decreases depth, 0
  {
    var got := ReadValue(c, DEFAULT_SECTION, name, depth - 1);
    if got.Value? {
      return got.value;
    }
    v := "";
    if section != DEFAULT_SECTION {
      if section in c.data && name in c.data[section] {
        v := c.data[section][name];
      }
    }
  }
}
