/** Default values that refer to one another: reading one recurses without end exactly if its references lead
    into a cycle. */
module ConfigCycles {
  import opened ConfigStores
  import opened ConfigValues
  import opened Wrappers

  /** Default values, none of which has more names than there are rounds. */
  ghost predicate AllModest(defaults: map<string, seq<Piece>>) {
    forall k {:trigger ModestKey(defaults, k)} :: k in defaults ==> ModestKey(defaults, k)
  }

  ghost predicate ModestKey(defaults: map<string, seq<Piece>>, k: string)
    requires k in defaults
  {
    AllFormed(defaults[k]) && |Names(defaults[k])| <= DEPTH_VALUES
  }

  /** The references below the key go at most so deep. */
  ghost predicate Bounded(defaults: map<string, seq<Piece>>, k: string, depth: nat)
    requires k in defaults
    decreases depth
  {
    Names(defaults[k]) == {}
    || (depth > 0 && forall n :: n in Names(defaults[k]) && n in defaults ==> Bounded(defaults, n, depth - 1))
  }

  ghost predicate NamesBounded(defaults: map<string, seq<Piece>>, names: set<string>, depth: nat) {
    names == {} || (depth > 0 && forall n :: n in names && n in defaults ==> Bounded(defaults, n, depth - 1))
  }

  /** The text of a reference, as a piece. */
  ghost function TextFinder(c: Config, depth: nat): string -> Option<seq<Piece>> {
    n => var got := Referenced(c, DEFAULT_SECTION, n, depth); if got == None then None else Some([Text(got.value)])
  }

  ghost predicate EndsFor(
      found: string -> Option<seq<Piece>>, defaults: map<string, seq<Piece>>, n: string, depth: nat)
  {
    && (found(n).Some? <==> depth > 0 && (n in defaults ==> Bounded(defaults, n, depth - 1)))
    && (found(n).Some? ==> forall p :: p in found(n).value ==> p.Text?)
  }

  lemma {:induction false} WalkIffBounded(found: string -> Option<seq<Piece>>, defaults: map<string, seq<Piece>>,
                                          ps: seq<Piece>, rounds: nat, depth: nat)
    requires forall n {:trigger EndsFor(found, defaults, n, depth)} :: EndsFor(found, defaults, n, depth)
    requires |Names(ps)| <= rounds
    ensures Walk(found, ps, rounds).Some? <==> NamesBounded(defaults, Names(ps), depth)
    ensures Walk(found, ps, rounds).Some? ==> FirstRef(Walk(found, ps, rounds).value) == None
    decreases rounds
  {
    NoNames(ps);
    if FirstRef(ps).Some? {
      var n := FirstRef(ps).value;
      FirstRefIn(ps);
      assert n in Names(ps) && EndsFor(found, defaults, n, depth);
      if found(n) == None {
        NamesSplit(defaults, Names(ps), n, Names(ps) - {n}, depth);
      } else {
        var qs := Replaced(ps, n, found(n).value);
        NamesOfReplaced(ps, n, found(n).value);
        NamesSplit(defaults, Names(ps), n, Names(qs), depth);
        WalkIffBounded(found, defaults, qs, rounds - 1, depth);
      }
    }
  }

  lemma NamesSplit(defaults: map<string, seq<Piece>>, names: set<string>, n: string, others: set<string>, depth: nat)
    requires n in names && others == names - {n}
    ensures NamesBounded(defaults, names, depth)
            <==> && depth > 0 && (n in defaults ==> Bounded(defaults, n, depth - 1))
                 && NamesBounded(defaults, others, depth)
  {
    forall m | m in names ensures m == n || m in others {}
    forall m | m in others ensures m in names {}
  }

  /** Reading a default value ends exactly if the references below it do. */
  lemma {:induction false} EndsIffBounded(defaults: map<string, seq<Piece>>, c: Config, k: string, depth: nat)
    requires AllModest(defaults) && Holds(c, DEFAULT_SECTION, defaults) && k in defaults
    ensures GetValue(c, DEFAULT_SECTION, k, depth).Some? <==> Bounded(defaults, k, depth)
    ensures forall v :: GetValue(c, DEFAULT_SECTION, k, depth) == Some(v) ==> v.Value? && '%' !in v.value
    decreases depth, 1
  {
    var ps := defaults[k];
    var text, found, names := Finder(c, DEFAULT_SECTION, depth), TextFinder(c, depth),
        iset n | n in defaults || n !in defaults;
    assert ModestKey(defaults, k) && KeyHolds(c, DEFAULT_SECTION, defaults, k);
    forall n ensures Agrees(text, found, names, n) && EndsFor(found, defaults, n, depth) {
      ReferenceEnds(defaults, c, n, depth);
      if found(n).Some? { RenderOne(found(n).value[0]); }
    }
    forall n | n in names && found(n).Some? ensures Kept(found(n).value, names) {
      assert Agrees(text, found, names, n);
    }
    WalkIffBounded(found, defaults, ps, DEPTH_VALUES, depth);
    LoopIsWalk(text, found, names, ps, DEPTH_VALUES);
    WalkKeeps(found, names, ps, DEPTH_VALUES);
    SubstitutedIsLoop(c, DEFAULT_SECTION, Render(ps), DEPTH_VALUES, depth);
    if Walk(found, ps, DEPTH_VALUES).Some? { NoPercent(Walk(found, ps, DEPTH_VALUES).value); }
    ReadsFrom(c, k, depth);
  }

  lemma ReferenceEnds(defaults: map<string, seq<Piece>>, c: Config, n: string, depth: nat)
    requires AllModest(defaults) && Holds(c, DEFAULT_SECTION, defaults)
    ensures Referenced(c, DEFAULT_SECTION, n, depth).Some?
            <==> depth > 0 && (n in defaults ==> Bounded(defaults, n, depth - 1))
    ensures Referenced(c, DEFAULT_SECTION, n, depth).Some? ==> '%' !in Referenced(c, DEFAULT_SECTION, n, depth).value
    decreases depth, 0
  {
    if depth > 0 {
      if n in defaults {
        EndsIffBounded(defaults, c, n, depth - 1);
      } else {
        assert KeyHolds(c, DEFAULT_SECTION, defaults, n);
        FromOwn(c, DEFAULT_SECTION, n, depth);
      }
    }
  }

  lemma {:induction false} NoPercent(ps: seq<Piece>)
    requires AllFormed(ps) && FirstRef(ps) == None
    ensures '%' !in Render(ps)
  {
    if ps != [] {
      assert ps[0] in ps;
      NoPercent(ps[1..]);
    }
  }

  // ---- Cycles ----

  /** Keys each of which refers to another of them, or to itself. */
  ghost predicate Cyclic(defaults: map<string, seq<Piece>>, keys: set<string>) {
    forall k :: k in keys ==> k in defaults && Names(defaults[k]) * keys != {}
  }

  lemma {:induction false} CyclicIsUnbounded(defaults: map<string, seq<Piece>>, keys: set<string>, k: string,
      depth: nat)
    requires Cyclic(defaults, keys) && k in keys
    ensures !Bounded(defaults, k, depth)
    decreases depth
  {
    var n :| n in Names(defaults[k]) * keys;
    if depth > 0 { CyclicIsUnbounded(defaults, keys, n, depth - 1); }
  }

  ghost function Unbounded(defaults: map<string, seq<Piece>>, depth: nat): set<string> {
    set k | k in defaults && !Bounded(defaults, k, depth)
  }

  lemma {:induction false} Deeper(defaults: map<string, seq<Piece>>, k: string, depth: nat)
    requires k in defaults && Bounded(defaults, k, depth)
    ensures Bounded(defaults, k, depth + 1)
    decreases depth
  {
    if Names(defaults[k]) != {} {
      forall n | n in Names(defaults[k]) && n in defaults ensures Bounded(defaults, n, depth) {
        Deeper(defaults, n, depth - 1);
      }
    }
  }

  lemma {:induction false} DeeperStill(defaults: map<string, seq<Piece>>, k: string, depth: nat, more: nat)
    requires k in defaults && Bounded(defaults, k, depth) && depth <= more
    ensures Bounded(defaults, k, more)
    decreases more
  {
    if depth < more {
      DeeperStill(defaults, k, depth, more - 1);
      Deeper(defaults, k, more - 1);
    }
  }

  /** Going one deeper makes no difference at some depth up to the number of keys. */
  lemma Stable(defaults: map<string, seq<Piece>>) returns (depth: nat)
    ensures depth <= |defaults.Keys| && Unbounded(defaults, depth) == Unbounded(defaults, depth + 1)
  {
    depth := 0;
    Subset(Unbounded(defaults, 0), defaults.Keys);
    while Unbounded(defaults, depth) != Unbounded(defaults, depth + 1)
      invariant |Unbounded(defaults, depth)| + depth <= |defaults.Keys|
      decreases |Unbounded(defaults, depth)|
    {
      var now, next := Unbounded(defaults, depth), Unbounded(defaults, depth + 1);
      forall k | k in next ensures k in now { if Bounded(defaults, k, depth) { Deeper(defaults, k, depth); } }
      var x :| x in now && x !in next;
      Subset(next, now - {x});
      depth := depth + 1;
    }
  }

  /** What is not bounded by the number of keys lies in, or leads into, a cycle. */
  lemma UnboundedIsCyclic(defaults: map<string, seq<Piece>>, k: string) returns (keys: set<string>)
    requires k in defaults && !Bounded(defaults, k, |defaults.Keys|)
    ensures Cyclic(defaults, keys) && k in keys
  {
    var depth := Stable(defaults);
    keys := Unbounded(defaults, depth);
    if Bounded(defaults, k, depth) { DeeperStill(defaults, k, depth, |defaults.Keys|); }
    forall x | x in keys ensures x in defaults && Names(defaults[x]) * keys != {} {
      assert x in Unbounded(defaults, depth + 1);
      var n :| n in Names(defaults[x]) && n in defaults && !Bounded(defaults, n, depth);
      assert n in Names(defaults[x]) * keys;
    }
  }

  /** Reading a default value recurses without end exactly if its references lead into a cycle, and that is
      settled by a recursion as deep as there are keys. */
  lemma EndlessIffCyclic(defaults: map<string, seq<Piece>>, c: Config, k: string)
    requires AllModest(defaults) && Holds(c, DEFAULT_SECTION, defaults) && k in defaults
    ensures (forall depth :: GetValue(c, DEFAULT_SECTION, k, depth) == None)
            <==> exists keys :: Cyclic(defaults, keys) && k in keys
    ensures (forall depth :: GetValue(c, DEFAULT_SECTION, k, depth) == None)
            <==> GetValue(c, DEFAULT_SECTION, k, |defaults.Keys|) == None
  {
    var most := |defaults.Keys|;
    EndsIffBounded(defaults, c, k, most);
    if !Bounded(defaults, k, most) {
      var keys := UnboundedIsCyclic(defaults, k);
    }
    if keys :| Cyclic(defaults, keys) && k in keys {
      forall depth ensures GetValue(c, DEFAULT_SECTION, k, depth) == None {
        CyclicIsUnbounded(defaults, keys, k, depth);
        EndsIffBounded(defaults, c, k, depth);
      }
    }
  }

  /** Ranks leave no room for cycles. */
  lemma {:induction false} RankedIsBounded(e: Env, k: string)
    requires Acyclic(e) && k in e.defaults
    ensures Bounded(e.defaults, k, e.defaultRank[k] + 1)
    decreases e.defaultRank[k]
  {
    forall n | n in Names(e.defaults[k]) && n in e.defaults ensures Bounded(e.defaults, n, e.defaultRank[k]) {
      assert Ref(n) in e.defaults[k];
      RankedIsBounded(e, n);
      DeeperStill(e.defaults, n, e.defaultRank[n] + 1, e.defaultRank[k]);
    }
  }

  /** Whatever the values look like: if the first reference of each of some default keys strips to one of them,
      none of them is ever found. */
  lemma {:induction false} CycleHasNoValue(c: Config, keys: set<string>, k: string, depth: nat)
    requires forall n :: n in keys ==>
               var r := FindReference(Get(c, DEFAULT_SECTION, n)); 
               Has(c, DEFAULT_SECTION, n) && r != "" && Strip(r) in keys
    requires k in keys
    ensures GetValue(c, DEFAULT_SECTION, k, depth) == None
    decreases depth
  {
    var n := Strip(FindReference(Get(c, DEFAULT_SECTION, k)));
    if depth > 0 { CycleHasNoValue(c, keys, n, depth - 1); }
    assert Referenced(c, DEFAULT_SECTION, n, depth) == None;
    ReadsFrom(c, k, depth);
  }
}
