/** walkStats and filterStats of the bundled adapter: the part of a stats graph that belongs to a track. */
module Stats {
  import opened Wrappers

  /** A property value: a string, an array of strings, or anything else. */
  datatype Value = Text(text: string) | List(items: seq<string>) | Other

  datatype Field = Field(name: string, value: Value)

  /** A report with its own properties, in enumeration order. */
  datatype Report = Report(id: string, fields: seq<Field>)

  /** A Map from ids to reports, in insertion order. */
  type Graph = g: seq<Report> | Keyed(g) witness []

  ghost predicate Keyed(g: seq<Report>) {
    forall a, b :: a in g && b in g && a.id == b.id ==> a == b
  }

  function Get(g: seq<Report>, id: string): (r: Option<Report>)
    ensures r.Some? ==> r.value in g && r.value.id == id
    ensures r == None ==> forall a :: a in g ==> a.id != id
  {
    if g == [] then None else if g[0].id == id then Some(g[0]) else Get(g[1..], id)
  }

  lemma GetFinds(g: Graph, r: Report)
    requires r in g
    ensures Get(g, r.id) == Some(r)
  {
  }

  function Property(fields: seq<Field>, name: string): Option<Value> {
    if fields == [] then None else if fields[0].name == name then Some(fields[0].value) else Property(fields[1..], name)
  }

  /** The value under a name, and none if the name does not occur. */
  lemma {:induction false} PropertyIs(fields: seq<Field>, name: string, i: nat)
    requires i <= |fields| && forall j :: 0 <= j < i ==> fields[j].name != name
    ensures i < |fields| && fields[i].name == name ==> Property(fields, name) == Some(fields[i].value)
    ensures i == |fields| ==> Property(fields, name) == None
  {
    if i > 0 { PropertyIs(fields[1..], name, i - 1); }
  }

  predicate EndsWith(s: string, suffix: string) {
    |suffix| <= |s| && s[|s| - |suffix|..] == suffix
  }

  /** The ids a field refers to; an Ids field that holds no array makes the program throw. */
  function Refs(f: Field): seq<string> {
    if EndsWith(f.name, "Id") then (if f.value.Text? then [f.value.text] else [])
    else if EndsWith(f.name, "Ids") && f.value.List? then f.value.items
    else []
  }

  predicate Throws(f: Field) {
    !EndsWith(f.name, "Id") && EndsWith(f.name, "Ids") && !f.value.List?
  }

  ghost predicate Malformed(r: Report) {
    exists f :: f in r.fields && Throws(f)
  }

  // ---- Reachability ----

  ghost predicate RefersTo(r: Report, id: string) {
    exists f :: f in r.fields && id in Refs(f)
  }

  ghost predicate Edge(g: Graph, x: string, y: string) {
    Get(g, x).Some? && Get(g, y).Some? && RefersTo(Get(g, x).value, y)
  }

  ghost predicate Path(g: Graph, roots: set<string>, p: seq<string>) {
    && p != [] && p[0] in roots && Get(g, p[0]).Some?
    && forall i :: 0 <= i < |p| - 1 ==> Edge(g, p[i], p[i + 1])
  }

  ghost predicate Reachable(g: Graph, roots: set<string>, id: string) {
    exists p :: Path(g, roots, p) && p[|p| - 1] == id
  }

  lemma ReachRoot(g: Graph, roots: set<string>, id: string)
    requires id in roots && Get(g, id).Some?
    ensures Reachable(g, roots, id)
  {
    assert Path(g, roots, [id]);
  }

  lemma ReachStep(g: Graph, roots: set<string>, x: string, y: string)
    requires Reachable(g, roots, x) && Edge(g, x, y)
    ensures Reachable(g, roots, y)
  {
    var p :| Path(g, roots, p) && p[|p| - 1] == x;
    assert Path(g, roots, p + [y]);
    assert (p + [y])[|p + [y]| - 1] == y;
  }

  ghost function IdsOf(reports: seq<Report>): set<string> {
    set r | r in reports :: r.id
  }

  /** The references of the report that the graph resolves all lead into the set. */
  ghost predicate Follows(g: Graph, r: Report, ids: set<string>) {
    forall id :: RefersTo(r, id) && Get(g, id).Some? ==> id in ids
  }

  /** The reports of the graph that can be reached, and no others. */
  ghost predicate Closure(g: Graph, roots: set<string>, reports: seq<Report>) {
    && (forall r {:trigger r in reports} :: r in reports <==> r in g && Reachable(g, roots, r.id))
    && DistinctIds(reports)
  }

  ghost predicate DistinctIds(reports: seq<Report>) {
    forall i, j :: 0 <= i < j < |reports| ==> reports[i].id != reports[j].id
  }

  /** A collection that holds the roots and follows its references holds everything reachable. */
  lemma {:induction false} ClosedHoldsReachable(g: Graph, roots: set<string>, reports: seq<Report>, r: Report)
    requires r in g && Reachable(g, roots, r.id)
    requires forall a {:trigger a in reports} :: a in reports ==> a in g && Follows(g, a, IdsOf(reports))
    requires forall id :: id in roots && Get(g, id).Some? ==> id in IdsOf(reports)
    ensures r in reports
  {
    var p :| Path(g, roots, p) && p[|p| - 1] == r.id;
    var i := 0;
    while i < |p| - 1
      invariant 0 <= i < |p| && p[i] in IdsOf(reports)
    {
      assert Edge(g, p[i], p[i + 1]);
      var a :| a in reports && a.id == p[i];
      GetFinds(g, a);
      i := i + 1;
    }
    var a :| a in reports && a.id == r.id;
  }

  // ---- The program ----

  /** The Map that collects the result: every report is stored under its own id. */
  class ReportMap {
    var entries: seq<Report>

    constructor ()
      ensures entries == []
    {
      entries := [];
    }

    predicate Has(id: string)
      reads this
      ensures Has(id) <==> id in IdsOf(entries)
    {
      exists i :: 0 <= i < |entries| && entries[i].id == id
    }

    method Set(report: Report)
      requires !Has(report.id)
      modifies this
      ensures entries == old(entries) + [report]
    {
      entries := entries + [report];
    }
  }

  /** A walk only adds reports of the graph, each reachable, none twice. */
  ghost predicate Grown(g: Graph, roots: set<string>, before: seq<Report>, after: seq<Report>) {
    && before <= after
    && (forall i {:trigger after[i]} :: |before| <= i < |after| ==> after[i] in g && Reachable(g, roots, after[i].id))
    && (DistinctIds(before) ==> DistinctIds(after))
  }

  /** A walk that completes has followed everything it added. */
  ghost predicate Walked(g: Graph, roots: set<string>, before: seq<Report>, after: seq<Report>) {
    && Grown(g, roots, before, after)
    && (forall i {:trigger Malformed(after[i])} :: |before| <= i < |after| ==> !Malformed(after[i]))
    && (forall i {:trigger Follows(g, after[i], IdsOf(after))} ::
          |before| <= i < |after| ==> Follows(g, after[i], IdsOf(after)))
  }

  /** A walk that throws has met a malformed report. */
  ghost predicate Thrown(g: Graph, roots: set<string>, before: seq<Report>, after: seq<Report>) {
    Grown(g, roots, before, after) && exists i :: |before| <= i < |after| && Malformed(after[i])
  }

  lemma {:induction false} GrownMore(g: Graph, roots: set<string>, a: seq<Report>, b: seq<Report>, c: seq<Report>)
    requires Grown(g, roots, a, b) && Grown(g, roots, b, c)
    ensures Grown(g, roots, a, c) && IdsOf(a) <= IdsOf(b) <= IdsOf(c)
    ensures Walked(g, roots, a, b) && Walked(g, roots, b, c) ==> Walked(g, roots, a, c)
    ensures Thrown(g, roots, b, c) ==> Thrown(g, roots, a, c)
  {
    assert forall i :: 0 <= i < |b| ==> b[i] == c[i];
    if Walked(g, roots, a, b) && Walked(g, roots, b, c) {
      forall i | |a| <= i < |c| ensures !Malformed(c[i]) && Follows(g, c[i], IdsOf(c)) {
        if i < |b| { assert Follows(g, b[i], IdsOf(b)) && !Malformed(b[i]); }
      }
    }
  }

  ghost function AllIds(g: Graph): set<string> {
    set r | r in g :: r.id
  }

  method WalkStats(g: Graph, base: Option<Report>, resultSet: ReportMap, ghost roots: set<string>) returns (threw: bool)
    requires base.Some? ==> base.value in g && Reachable(g, roots, base.value.id)
    modifies resultSet
    ensures !threw ==> Walked(g, roots, old(resultSet.entries), resultSet.entries)
    ensures !threw && base.Some? ==> base.value.id in IdsOf(resultSet.entries)
    ensures threw ==> Thrown(g, roots, old(resultSet.entries), resultSet.entries)
    decreases AllIds(g) - IdsOf(resultSet.entries), 0
  {
    if base == None || resultSet.Has(base.value.id) {
      return false;
    }
    var report := base.value;
    resultSet.Set(report);
    ghost var start := resultSet.entries;
    Added(g, roots, old(resultSet.entries), report);
    for i := 0 to |report.fields|
      invariant Walked(g, roots, start, resultSet.entries)
      invariant forall f :: f in report.fields[..i] ==> Done(g, f, IdsOf(resultSet.entries))
    {
      ghost var before := resultSet.entries;
      FieldTargets(g, roots, report, report.fields[i]);
      threw := WalkField(g, report.fields[i], resultSet, roots);
      FieldWalked(g, roots, old(resultSet.entries), report, i, before, resultSet.entries, threw);
      if threw {
        return true;
      }
    }
    AddedWalked(g, roots, old(resultSet.entries), report, resultSet.entries);
    threw := false;
  }

  method WalkField(g: Graph, field: Field, resultSet: ReportMap, ghost roots: set<string>) returns (threw: bool)
    requires forall id :: id in Refs(field) && Get(g, id).Some? ==> Reachable(g, roots, id)
    modifies resultSet
    ensures !threw ==>
              Walked(g, roots, old(resultSet.entries), resultSet.entries) && Done(g, field, IdsOf(resultSet.entries))
    ensures threw ==>
              || Thrown(g, roots, old(resultSet.entries), resultSet.entries)
              || (resultSet.entries == old(resultSet.entries) && Throws(field))
    decreases AllIds(g) - IdsOf(resultSet.entries), 2
  {
    Unmoved(g, roots, resultSet.entries);
    if EndsWith(field.name, "Id") {
      if !field.value.Text? {
        NothingToDo(g, field, IdsOf(resultSet.entries));
        return false;
      }
      OneRef(g, field, roots);
      threw := WalkStats(g, Get(g, field.value.text), resultSet, roots);
      if !threw { OneDone(g, field, IdsOf(resultSet.entries)); }
    } else if EndsWith(field.name, "Ids") {
      if !field.value.List? {
        return true;
      }
      threw := WalkIds(g, field.value.items, resultSet, roots);
      if !threw { AllDone(g, field, IdsOf(resultSet.entries)); }
    } else {
      NothingToDo(g, field, IdsOf(resultSet.entries));
      return false;
    }
  }

  lemma NothingToDo(g: Graph, f: Field, ids: set<string>)
    requires if EndsWith(f.name, "Id") then !f.value.Text? else !EndsWith(f.name, "Ids")
    ensures Done(g, f, ids)
  {
  }

  lemma OneRef(g: Graph, f: Field, roots: set<string>)
    requires EndsWith(f.name, "Id") && f.value.Text?
    requires forall id :: id in Refs(f) && Get(g, id).Some? ==> Reachable(g, roots, id)
    ensures var base := Get(g, f.value.text);
            base.Some? ==> base.value in g && base.value.id == f.value.text && Reachable(g, roots, base.value.id)
  {
    assert f.value.text in Refs(f);
  }

  lemma OneDone(g: Graph, f: Field, ids: set<string>)
    requires EndsWith(f.name, "Id") && f.value.Text? && (Get(g, f.value.text).Some? ==> f.value.text in ids)
    ensures Done(g, f, ids)
  {
  }

  lemma AllDone(g: Graph, f: Field, ids: set<string>)
    requires !EndsWith(f.name, "Id") && EndsWith(f.name, "Ids") && f.value.List?
    requires forall id :: id in f.value.items && Get(g, id).Some? ==> id in ids
    ensures Done(g, f, ids)
  {
  }

  lemma Unmoved(g: Graph, roots: set<string>, reports: seq<Report>)
    ensures Walked(g, roots, reports, reports)
  {
  }

  method WalkIds(g: Graph, ids: seq<string>, resultSet: ReportMap, ghost roots: set<string>) returns (threw: bool)
    requires forall id :: id in ids && Get(g, id).Some? ==> Reachable(g, roots, id)
    modifies resultSet
    ensures !threw ==> Walked(g, roots, old(resultSet.entries), resultSet.entries)
    ensures !threw ==> forall id :: id in ids && Get(g, id).Some? ==> id in IdsOf(resultSet.entries)
    ensures threw ==> Thrown(g, roots, old(resultSet.entries), resultSet.entries)
    decreases AllIds(g) - IdsOf(resultSet.entries), 1
  {
    for j := 0 to |ids|
      invariant Walked(g, roots, old(resultSet.entries), resultSet.entries)
      invariant forall id :: id in ids[..j] && Get(g, id).Some? ==> id in IdsOf(resultSet.entries)
    {
      ghost var before := resultSet.entries;
      GrownMore(g, roots, old(resultSet.entries), old(resultSet.entries), before);
      threw := WalkStats(g, Get(g, ids[j]), resultSet, roots);
      GrownMore(g, roots, old(resultSet.entries), before, resultSet.entries);
      if threw {
        return true;
      }
      assert ids[..j + 1] == ids[..j] + [ids[j]];
    }
    threw := false;
  }

  /** The field has been followed. */
  ghost predicate Done(g: Graph, f: Field, ids: set<string>) {
    !Throws(f) && forall id :: id in Refs(f) && Get(g, id).Some? ==> id in ids
  }

  lemma FieldTargets(g: Graph, roots: set<string>, report: Report, f: Field)
    requires report in g && Reachable(g, roots, report.id) && f in report.fields
    ensures forall id :: id in Refs(f) && Get(g, id).Some? ==> Reachable(g, roots, id)
  {
    GetFinds(g, report);
    forall id | id in Refs(f) && Get(g, id).Some? ensures Reachable(g, roots, id) {
      assert RefersTo(report, id) && Edge(g, report.id, id);
      ReachStep(g, roots, report.id, id);
    }
  }

  /** One round of the loop over the fields. */
  lemma {:induction false} FieldWalked(g: Graph, roots: set<string>, initial: seq<Report>, report: Report, i: nat,
                    before: seq<Report>, after: seq<Report>, threw: bool)
    requires i < |report.fields| && Grown(g, roots, initial, initial + [report])
    requires Walked(g, roots, initial + [report], before)
    requires forall f :: f in report.fields[..i] ==> Done(g, f, IdsOf(before))
    requires !threw ==> Walked(g, roots, before, after) && Done(g, report.fields[i], IdsOf(after))
    requires threw ==> Thrown(g, roots, before, after) || (after == before && Throws(report.fields[i]))
    ensures threw ==> Thrown(g, roots, initial, after)
    ensures !threw ==> Walked(g, roots, initial + [report], after)
    ensures !threw ==> forall f :: f in report.fields[..i + 1] ==> Done(g, f, IdsOf(after))
  {
    var f := report.fields[i];
    GrownMore(g, roots, initial + [report], before, after);
    if threw {
      if after == before {
        assert f in report.fields;
        AddedThrows(g, roots, initial, report, after);
      } else {
        GrownMore(g, roots, initial, initial + [report], after);
      }
    } else {
      assert report.fields[..i + 1] == report.fields[..i] + [f];
      forall e | e in report.fields[..i] ensures Done(g, e, IdsOf(after)) {
        assert Done(g, e, IdsOf(before));
      }
    }
  }

  lemma Added(g: Graph, roots: set<string>, before: seq<Report>, report: Report)
    requires report in g && Reachable(g, roots, report.id) && report.id !in IdsOf(before)
    ensures Grown(g, roots, before, before + [report])
    ensures AllIds(g) - IdsOf(before + [report]) < AllIds(g) - IdsOf(before)
  {
    var after := before + [report];
    forall i | 0 <= i < |before| ensures before[i].id != report.id {
      assert before[i] in before;
    }
    assert report in after && IdsOf(before) <= IdsOf(after);
    assert report.id in AllIds(g) - IdsOf(before);
  }

  lemma AddedThrows(g: Graph, roots: set<string>, before: seq<Report>, report: Report, after: seq<Report>)
    requires Grown(g, roots, before, before + [report]) && Grown(g, roots, before + [report], after)
            && Malformed(report)
    ensures Thrown(g, roots, before, after)
  {
    GrownMore(g, roots, before, before + [report], after);
    assert after[|before|] == report;
  }

  lemma AddedWalked(g: Graph, roots: set<string>, before: seq<Report>, report: Report, after: seq<Report>)
    requires Grown(g, roots, before, before + [report]) && Walked(g, roots, before + [report], after)
    requires forall f :: f in report.fields ==> Done(g, f, IdsOf(after))
    ensures Walked(g, roots, before, after) && report.id in IdsOf(after)
  {
    GrownMore(g, roots, before, before + [report], after);
    assert after[|before|] == report;
    forall i | |before| <= i < |after| ensures !Malformed(after[i]) && Follows(g, after[i], IdsOf(after)) {
      if i == |before| {
        forall id | RefersTo(report, id) && Get(g, id).Some? ensures id in IdsOf(after) {
          var f :| f in report.fields && id in Refs(f);
          assert Done(g, f, IdsOf(after));
        }
      }
    }
  }

  // ---- filterStats ----

  function Direction(outbound: bool): string {
    if outbound then "outbound-rtp" else "inbound-rtp"
  }

  predicate IsTrack(r: Report, track: string) {
    Property(r.fields, "type") == Some(Text("track")) && Property(r.fields, "trackIdentifier") == Some(Text(track))
  }

  predicate IsStream(r: Report, trackStat: string, outbound: bool) {
    && Property(r.fields, "type") == Some(Text(Direction(outbound)))
    && Property(r.fields, "trackId") == Some(Text(trackStat))
  }

  /** The RTP reports of the track in the chosen direction. */
  ghost function Streams(g: Graph, track: string, outbound: bool): set<string> {
    set r, t | r in g && t in g && IsTrack(t, track) && IsStream(r, t.id, outbound) :: r.id
  }

  /** In words: an RTP report of the direction, whose trackId is the id of a track report of the track. */
  ghost predicate BelongsTo(g: Graph, r: Report, track: string, outbound: bool) {
    && r in g && HasType(r, if outbound then "outbound-rtp" else "inbound-rtp")
    && exists t ::
         && t in g && HasType(t, "track")
         && Property(t.fields, "trackIdentifier") == Some(Text(track))
         && Property(r.fields, "trackId") == Some(Text(t.id))
  }

  lemma StreamsBelong(g: Graph, track: string, outbound: bool, id: string)
    ensures id in Streams(g, track, outbound) <==> exists r :: BelongsTo(g, r, track, outbound) && r.id == id
  {
    if id in Streams(g, track, outbound) {
      var r, t :| r in g && t in g && IsTrack(t, track) && IsStream(r, t.id, outbound) && r.id == id;
      assert BelongsTo(g, r, track, outbound);
    }
    if r :| BelongsTo(g, r, track, outbound) && r.id == id {
      var t :| t in g && HasType(t, "track")
               && Property(t.fields, "trackIdentifier") == Some(Text(track))
               && Property(r.fields, "trackId") == Some(Text(t.id));
      assert IsTrack(t, track) && IsStream(r, t.id, outbound);
    }
  }

  /** A reference in words: a string under a name that ends in Id, or an array element under one that ends in Ids. */
  lemma RefersInWords(r: Report, id: string)
    ensures RefersTo(r, id) <==> exists f :: f in r.fields && RefersUnder(f, id)
  {
    forall f | f in r.fields ensures id in Refs(f) <==> RefersUnder(f, id) { IdsIsNotId(f.name); }
  }

  ghost predicate RefersUnder(f: Field, id: string) {
    |f.name| >= 2
    && ((f.name[|f.name| - 2..] == "Id" && f.value == Text(id))
        || (|f.name| >= 3 && f.name[|f.name| - 3..] == "Ids" && f.value.List? && id in f.value.items))
  }

  lemma IdsIsNotId(name: string)
    ensures |name| >= 3 && name[|name| - 3..] == "Ids" ==> name[|name| - 2..] != "Id"
  {
    if |name| >= 3 {
      assert name[|name| - 3..][2] == name[|name| - 1] && name[|name| - 2..][1] == name[|name| - 1];
    }
  }

  ghost predicate HasType(r: Report, kind: string) {
    Property(r.fields, "type") == Some(Text(kind))
  }

  /** All RTP reports of the track in the direction are in the result. */
  lemma StreamsAreIn(g: Graph, track: string, outbound: bool, reports: seq<Report>)
    requires Closure(g, Streams(g, track, outbound), reports)
    ensures forall r :: BelongsTo(g, r, track, outbound) ==> r in reports
  {
    forall r | BelongsTo(g, r, track, outbound) ensures r in reports {
      StreamsBelong(g, track, outbound, r.id);
      GetFinds(g, r);
      ReachRoot(g, Streams(g, track, outbound), r.id);
    }
  }

  /** All that is reachable is reachable from one of them. */
  lemma ReachedFromStream(g: Graph, track: string, outbound: bool, id: string)
    requires Reachable(g, Streams(g, track, outbound), id)
    ensures exists first :: BelongsTo(g, first, track, outbound) && Reachable(g, {first.id}, id)
  {
    var p :| Path(g, Streams(g, track, outbound), p) && p[|p| - 1] == id;
    StreamsBelong(g, track, outbound, p[0]);
    var first :| BelongsTo(g, first, track, outbound) && first.id == p[0];
    assert Path(g, {first.id}, p);
  }

  lemma AllReachedFromStreams(g: Graph, track: string, outbound: bool, reports: seq<Report>)
    requires Closure(g, Streams(g, track, outbound), reports)
    ensures forall r :: r in reports ==> ReachesFrom(g, track, outbound, r)
  {
    forall r | r in reports ensures ReachesFrom(g, track, outbound, r) {
      ReachedFromStream(g, track, outbound, r.id);
    }
  }

  /** Whatever is found or thrown at takes an RTP report of the direction. */
  lemma NeedsStream(g: Graph, track: string, outbound: bool, threw: bool, reports: seq<Report>)
    requires !threw ==> Closure(g, Streams(g, track, outbound), reports)
    requires threw ==> exists r :: r in g && Reachable(g, Streams(g, track, outbound), r.id) && Malformed(r)
    requires threw || reports != []
    ensures exists r :: r in g && HasType(r, if outbound then "outbound-rtp" else "inbound-rtp")
  {
    var id: string;
    if threw {
      var r :| r in g && Reachable(g, Streams(g, track, outbound), r.id) && Malformed(r);
      id := r.id;
    } else {
      assert reports[0] in reports;
      id := reports[0].id;
    }
    ReachedFromStream(g, track, outbound, id);
    var first :| BelongsTo(g, first, track, outbound) && Reachable(g, {first.id}, id);
  }

  ghost predicate ReachesFrom(g: Graph, track: string, outbound: bool, r: Report) {
    exists first :: BelongsTo(g, first, track, outbound) && Reachable(g, {first.id}, r.id)
  }

  /** A malformed report within reach makes the program throw; otherwise it returns exactly what can be reached. */
  method FilterStats(g: Graph, track: Option<string>, outbound: bool) returns (threw: bool, filtered: ReportMap)
    ensures fresh(filtered)
    ensures track == None ==> !threw && filtered.entries == []
    ensures track.Some? && !threw ==> Closure(g, Streams(g, track.value, outbound), filtered.entries)
    ensures track.Some? && !threw ==>
              && (forall r :: BelongsTo(g, r, track.value, outbound) ==> r in filtered.entries)
              && (forall r :: r in filtered.entries ==> ReachesFrom(g, track.value, outbound, r))
    ensures (forall r :: r in g ==> !HasType(r, if outbound then "outbound-rtp" else "inbound-rtp")) ==>
              !threw && filtered.entries == []
    ensures track.Some? ==>
              (threw <==> exists r :: r in g && Reachable(g, Streams(g, track.value, outbound), r.id) && Malformed(r))
  {
    if track == None {
      filtered := new ReportMap();
      return false, filtered;
    }
    threw, filtered := FilterTrack(g, track.value, outbound);
    if !threw {
      StreamsAreIn(g, track.value, outbound, filtered.entries);
      AllReachedFromStreams(g, track.value, outbound, filtered.entries);
    }
    if threw || filtered.entries != [] {
      NeedsStream(g, track.value, outbound, threw, filtered.entries);
    }
  }

  method FilterTrack(g: Graph, track: string, outbound: bool) returns (threw: bool, filtered: ReportMap)
    ensures fresh(filtered)
    ensures !threw ==> Closure(g, Streams(g, track, outbound), filtered.entries)
    ensures threw <==> exists r :: r in g && Reachable(g, Streams(g, track, outbound), r.id) && Malformed(r)
  {
    filtered := new ReportMap();
    var trackStats: seq<Report> := [];
    for i := 0 to |g|
      invariant forall t :: t in trackStats <==> t in g[..i] && IsTrack(t, track)
    {
      if IsTrack(g[i], track) {
        trackStats := trackStats + [g[i]];
      }
      assert g[..i + 1] == g[..i] + [g[i]];
    }
    assert g[..|g|] == g;
    ghost var roots := Streams(g, track, outbound);
    for i := 0 to |trackStats|
      invariant fresh(filtered) && Walked(g, roots, [], filtered.entries)
      invariant forall k, r :: 0 <= k < i && r in g && IsStream(r, trackStats[k].id, outbound) ==>
                  r.id in IdsOf(filtered.entries)
    {
      ghost var before := filtered.entries;
      threw := WalkStreams(g, trackStats[i], outbound, filtered, roots);
      GrownMore(g, roots, [], before, filtered.entries);
      if threw {
        ThrownReaches(g, roots, filtered.entries);
        return true, filtered;
      }
    }
    threw := false;
    WalkedIsClosure(g, roots, filtered.entries);
  }

  /** The inner loop: every stream of one track report is walked. */
  method WalkStreams(g: Graph, trackStat: Report, outbound: bool, resultSet: ReportMap, ghost roots: set<string>)
    returns (threw: bool)
    requires forall r :: r in g && IsStream(r, trackStat.id, outbound) ==> r.id in roots
    modifies resultSet
    ensures !threw ==> Walked(g, roots, old(resultSet.entries), resultSet.entries)
    ensures !threw ==> forall r :: r in g && IsStream(r, trackStat.id, outbound) ==> r.id in IdsOf(resultSet.entries)
    ensures threw ==> Thrown(g, roots, old(resultSet.entries), resultSet.entries)
  {
    for j := 0 to |g|
      invariant Walked(g, roots, old(resultSet.entries), resultSet.entries)
      invariant forall k :: 0 <= k < j && IsStream(g[k], trackStat.id, outbound) ==> g[k].id in IdsOf(resultSet.entries)
    {
      if IsStream(g[j], trackStat.id, outbound) {
        ghost var before := resultSet.entries;
        GetFinds(g, g[j]);
        ReachRoot(g, roots, g[j].id);
        threw := WalkStats(g, Some(g[j]), resultSet, roots);
        GrownMore(g, roots, old(resultSet.entries), before, resultSet.entries);
        if threw {
          return true;
        }
      }
    }
    threw := false;
  }

  lemma ThrownReaches(g: Graph, roots: set<string>, reports: seq<Report>)
    requires Thrown(g, roots, [], reports)
    ensures exists r :: r in g && Reachable(g, roots, r.id) && Malformed(r)
  {
    var i :| 0 <= i < |reports| && Malformed(reports[i]);
    assert reports[i] in g;
  }

  lemma {:induction false} WalkedIsClosure(g: Graph, roots: set<string>, reports: seq<Report>)
    requires Walked(g, roots, [], reports) && forall id :: id in roots && Get(g, id).Some? ==> id in IdsOf(reports)
    ensures Closure(g, roots, reports)
    ensures !exists r :: r in g && Reachable(g, roots, r.id) && Malformed(r)
  {
    forall r | r in reports
      ensures r in g && Reachable(g, roots, r.id) && Follows(g, r, IdsOf(reports)) && !Malformed(r)
    {
      var i :| 0 <= i < |reports| && reports[i] == r;
    }
    forall r | r in g && Reachable(g, roots, r.id) ensures r in reports {
      ClosedHoldsReachable(g, roots, reports, r);
    }
  }
}
