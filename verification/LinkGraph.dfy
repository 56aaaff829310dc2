/**
 The knowledge graph built from vault links: one flat edge list and two indexes over it, all three
 changed in place when a note is inserted or replaced.
 */
module LinkGraph {
  import opened Prelude

  datatype Edge = Edge(source: string, target: string, context: string)

  datatype Note = Note(content: string)

  /** One call of `upsert_note`. */
  datatype Upsert = Upsert(key: string, note: Note, edges: seq<Edge>)

  // ---------------------------------------------------------------- projections of the edge list

  function Targets(edges: seq<Edge>, source: string): seq<string> {
    if edges == [] then [] else
      var e := edges[|edges| - 1];
      Targets(edges[..|edges| - 1], source) + if e.source == source then [e.target] else []
  }

  function Sources(edges: seq<Edge>, target: string): seq<string> {
    if edges == [] then [] else
      var e := edges[|edges| - 1];
      Sources(edges[..|edges| - 1], target) + if e.target == target then [e.source] else []
  }

  /** `[e for e in edges if e.source_path != source]` */
  function Without(edges: seq<Edge>, source: string): seq<Edge> {
    if edges == [] then [] else
      var e := edges[|edges| - 1];
      Without(edges[..|edges| - 1], source) + if e.source != source then [e] else []
  }

  /** `[s for s in sources if s != source]` */
  function Dropping(sources: seq<string>, source: string): seq<string> {
    if sources == [] then [] else
      var s := sources[|sources| - 1];
      Dropping(sources[..|sources| - 1], source) + if s != source then [s] else []
  }

  function Lookup(index: map<string, seq<string>>, key: string): seq<string> {
    if key in index then index[key] else []
  }

  /** The index holds exactly the projection of every key that has one, and no empty list. */
  ghost predicate IndexAt(index: map<string, seq<string>>, key: string, projection: seq<string>) {
    if projection == [] then key !in index else key in index && index[key] == projection
  }

  ghost predicate OutgoingOk(index: map<string, seq<string>>, edges: seq<Edge>) {
    forall s {:trigger Targets(edges, s)} :: IndexAt(index, s, Targets(edges, s))
  }

  ghost predicate IncomingOk(index: map<string, seq<string>>, edges: seq<Edge>) {
    forall t {:trigger Sources(edges, t)} :: IndexAt(index, t, Sources(edges, t))
  }

  lemma TargetsSnoc(edges: seq<Edge>, e: Edge, key: string)
    ensures Targets(edges + [e], key) == Targets(edges, key) + if e.source == key then [e.target] else []
    ensures Sources(edges + [e], key) == Sources(edges, key) + if e.target == key then [e.source] else []
  {
    assert (edges + [e])[..|edges|] == edges;
  }

  lemma DroppingSnoc(sources: seq<string>, s: string, source: string)
    ensures Dropping(sources + [s], source) == Dropping(sources, source) + if s != source then [s] else []
  {
    assert (sources + [s])[..|sources|] == sources;
  }

  lemma {:induction false} WithoutTargets(edges: seq<Edge>, source: string, key: string)
    ensures Targets(Without(edges, source), key) == if key == source then [] else Targets(edges, key)
  {
    if edges != [] {
      var n := |edges| - 1;
      WithoutTargets(edges[..n], source, key);
      assert Without(edges[..n], source) + [] == Without(edges[..n], source);
      TargetsSnoc(Without(edges[..n], source), edges[n], key);
    }
  }

  lemma {:induction false} WithoutSources(edges: seq<Edge>, source: string, key: string)
    ensures Sources(Without(edges, source), key) == Dropping(Sources(edges, key), source)
  {
    if edges != [] {
      var n := |edges| - 1;
      WithoutSources(edges[..n], source, key);
      assert Without(edges[..n], source) + [] == Without(edges[..n], source);
      assert Sources(edges[..n], key) + [] == Sources(edges[..n], key);
      TargetsSnoc(Without(edges[..n], source), edges[n], key);
      DroppingSnoc(Sources(edges[..n], key), edges[n].source, source);
    }
  }

  lemma {:induction false} WithoutProjects(edges: seq<Edge>, source: string, key: string)
    ensures Targets(Without(edges, source), key) == if key == source then [] else Targets(edges, key)
    ensures Sources(Without(edges, source), key) == Dropping(Sources(edges, key), source)
  {
    WithoutTargets(edges, source, key);
    WithoutSources(edges, source, key);
  }

  lemma {:induction false} NotATarget(edges: seq<Edge>, source: string, target: string)
    requires target !in Targets(edges, source)
    ensures source !in Sources(edges, target)
  {
    if edges != [] { NotATarget(edges[..|edges| - 1], source, target); }
  }

  lemma {:induction false} DroppingAbsent(sources: seq<string>, source: string)
    requires source !in sources
    ensures Dropping(sources, source) == sources
  {
    if sources != [] { DroppingAbsent(sources[..|sources| - 1], source); }
  }

  lemma {:induction false} WithoutAbsent(edges: seq<Edge>, source: string)
    requires forall e :: e in edges ==> e.source != source
    ensures Without(edges, source) == edges
  {
    if edges != [] { WithoutAbsent(edges[..|edges| - 1], source); }
  }

  lemma {:induction false} NoTargetsNoEdges(edges: seq<Edge>, source: string)
    requires Targets(edges, source) == []
    ensures forall e :: e in edges ==> e.source != source
  {
    if edges != [] { NoTargetsNoEdges(edges[..|edges| - 1], source); }
  }

  /** A target that the source does not link to keeps its list of sources. */
  lemma OthersKeepSources(edges: seq<Edge>, source: string, target: string)
    requires target !in Targets(edges, source)
    ensures Sources(Without(edges, source), target) == Sources(edges, target)
  {
    WithoutProjects(edges, source, target);
    NotATarget(edges, source, target);
    DroppingAbsent(Sources(edges, target), source);
  }

  // ---------------------------------------------------------------- the graph

  class KnowledgeGraph {
    var nodes: map<string, Note>
    var edges: seq<Edge>
    var outgoing: map<string, seq<string>>
    var incoming: map<string, seq<string>>

    ghost predicate Valid()
      reads this
    {
      OutgoingOk(outgoing, edges) && IncomingOk(incoming, edges)
    }

    constructor ()
      ensures Valid() && nodes == map[] && edges == []
    {
      nodes, edges, outgoing, incoming := map[], [], map[], map[];
    }

    /** The list comprehension that drops a source's edges. */
    method FilterEdges(source: string) returns (kept: seq<Edge>)
      ensures kept == Without(edges, source)
    {
      kept := [];
      for i := 0 to |edges|
        invariant kept == Without(edges[..i], source)
      {
        if edges[i].source != source { kept := kept + [edges[i]]; }
        assert edges[..i + 1][..i] == edges[..i];
      }
      assert edges[..|edges|] == edges;
    }

    method RemoveOutgoing(source: string)
      requires Valid()
      modifies `edges, `outgoing, `incoming
      ensures Valid() && edges == Without(old(edges), source)
    {
      hide Targets, Sources, Without, Dropping;
      assert IndexAt(outgoing, source, Targets(edges, source));
      if source !in outgoing {
        NoTargetsNoEdges(edges, source);
        WithoutAbsent(edges, source);
        return;
      }
      var staleTargets := Elements(outgoing[source]);
      edges := FilterEdges(source);
      OutgoingAfter(outgoing, old(edges), source);
      outgoing := outgoing - {source};
      DropSource(old(edges), source, staleTargets);
    }

    /** The loop over the stale targets, in any order. */
    method DropSource(ghost before: seq<Edge>, source: string, staleTargets: set<string>)
      requires IncomingOk(incoming, before) && edges == Without(before, source)
               && staleTargets == Elements(Targets(before, source))
      modifies `incoming
      ensures IncomingOk(incoming, edges)
    {
      hide Targets, Sources, Without, Dropping;
      forall t | t !in staleTargets
        ensures Sources(edges, t) == Sources(before, t)
      {
        OthersKeepSources(before, source, t);
      }
      var todo := staleTargets;
      while todo != {}
        invariant forall t {:trigger Sources(edges, t)} :: t !in todo ==> IndexAt(incoming, t, Sources(edges, t))
        invariant forall t {:trigger Sources(before, t)} :: t in todo ==> IndexAt(incoming, t, Sources(before, t))
        decreases todo
      {
        var t :| t in todo;
        WithoutProjects(before, source, t);
        var kept := Dropping(Lookup(incoming, t), source);
        DroppingNothing(source);
        assert IndexAt(incoming, t, Sources(before, t));
        incoming := if kept == [] then incoming - {t} else incoming[t := kept];
        todo := todo - {t};
      }
    }

    /** Inserts or replaces a note and its outgoing edges. */
    method UpsertNote(u: Upsert)
      requires Valid()
      modifies this
      ensures Valid() && nodes == old(nodes)[u.key := u.note] && edges == Upserted(old(edges), u)
    {
      RemoveOutgoing(u.key);
      nodes := nodes[u.key := u.note];
      ghost var kept := edges;
      for i := 0 to |u.edges|
        invariant Valid() && nodes == old(nodes)[u.key := u.note] && edges == kept + u.edges[..i]
      {
        AddEdge(u.edges[i]);
        assert kept + u.edges[..i + 1] == kept + u.edges[..i] + [u.edges[i]];
      }
      assert u.edges[..|u.edges|] == u.edges;
    }

    method AddEdge(e: Edge)
      requires Valid()
      modifies `edges, `outgoing, `incoming
      ensures Valid() && edges == old(edges) + [e]
    {
      forall key
        ensures Targets(edges + [e], key) == Targets(edges, key) + if e.source == key then [e.target] else []
        ensures Sources(edges + [e], key) == Sources(edges, key) + if e.target == key then [e.source] else []
      {
        TargetsSnoc(edges, e, key);
      }
      edges := edges + [e];
      outgoing := outgoing[e.source := Lookup(outgoing, e.source) + [e.target]];
      incoming := incoming[e.target := Lookup(incoming, e.target) + [e.source]];
    }

    /** All sources that link to the target: what a scan of the edges finds, in order. */
    method Neighbors(target: string) returns (sources: seq<string>)
      requires Valid()
      ensures sources == Sources(edges, target)
    {
      sources := Lookup(incoming, target);
    }

    method Outgoing(source: string) returns (targets: seq<string>)
      requires Valid()
      ensures targets == Targets(edges, source)
    {
      targets := Lookup(outgoing, source);
    }
  }

  lemma DroppingNothing(source: string)
    ensures Dropping([], source) == []
  {
  }

  lemma OutgoingAfter(index: map<string, seq<string>>, edges: seq<Edge>, source: string)
    requires OutgoingOk(index, edges)
    ensures OutgoingOk(index - {source}, Without(edges, source))
  {
    forall s
      ensures IndexAt(index - {source}, s, Targets(Without(edges, source), s))
    {
      WithoutProjects(edges, source, s);
      assert IndexAt(index, s, Targets(edges, s));
    }
  }

  // ---------------------------------------------------------------- whole runs of upserts

  /** What `UpsertNote` does to the edge list. */
  function Upserted(edges: seq<Edge>, u: Upsert): seq<Edge> {
    Without(edges, u.key) + u.edges
  }

  function EdgesAfter(run: seq<Upsert>): seq<Edge> {
    if run == [] then [] else Upserted(EdgesAfter(run[..|run| - 1]), run[|run| - 1])
  }

  /** Every edge comes from the note it is upserted with, as the link extractor builds them. */
  predicate OwnEdges(u: Upsert) {
    forall e :: e in u.edges ==> e.source == u.key
  }

  /** The note has been upserted again since. */
  predicate Superseded(run: seq<Upsert>, i: nat)
    requires i < |run|
  {
    exists j :: i < j < |run| && run[j].key == run[i].key
  }

  /** The edges of the first `n` upserts that are still current, in upsert order. */
  function Current(run: seq<Upsert>, n: nat): seq<Edge>
    requires n <= |run|
  {
    if n == 0 then [] else Current(run, n - 1) + if Superseded(run, n - 1) then [] else run[n - 1].edges
  }

  lemma {:induction false} WithoutConcat(a: seq<Edge>, b: seq<Edge>, source: string)
    ensures Without(a + b, source) == Without(a, source) + Without(b, source)
    decreases |b|
  {
    if b == [] {
      assert a + b == a;
    } else {
      var n := |b| - 1;
      WithoutConcat(a, b[..n], source);
      assert (a + b)[..|a + b| - 1] == a + b[..n];
    }
  }

  lemma {:induction false} WithoutOwn(edges: seq<Edge>, source: string)
    requires forall e :: e in edges ==> e.source == source
    ensures Without(edges, source) == []
  {
    if edges != [] { WithoutOwn(edges[..|edges| - 1], source); }
  }

  /** One more upsert retires the older edges of its note and no others. */
  lemma {:induction false} CurrentRetires(run: seq<Upsert>, u: Upsert, n: nat)
    requires n <= |run| && forall v :: v in run ==> OwnEdges(v)
    ensures Current(run + [u], n) == Without(Current(run, n), u.key)
  {
    if n > 0 {
      var k := n - 1;
      var more := run + [u];
      CurrentRetires(run, u, k);
      assert run[k] in run && OwnEdges(run[k]);
      WithoutConcat(Current(run, k), if Superseded(run, k) then [] else run[k].edges, u.key);
      if run[k].key == u.key {
        assert more[|run|].key == more[k].key;
        WithoutOwn(run[k].edges, u.key);
      } else {
        SupersededSame(run, u, k);
        WithoutAbsent(run[k].edges, u.key);
      }
    }
  }

  lemma SupersededSame(run: seq<Upsert>, u: Upsert, i: nat)
    requires i < |run| && run[i].key != u.key
    ensures Superseded(run + [u], i) == Superseded(run, i)
  {
    var more := run + [u];
    if Superseded(run, i) {
      var j :| i < j < |run| && run[j].key == run[i].key;
      assert more[j].key == more[i].key;
    }
  }

  /** After any run the edges are those of each note's latest upsert, in upsert order. */
  lemma {:induction false} EdgesAreCurrent(run: seq<Upsert>)
    requires forall u :: u in run ==> OwnEdges(u)
    ensures EdgesAfter(run) == Current(run, |run|)
  {
    if run != [] {
      var n := |run| - 1;
      EdgesAreCurrent(run[..n]);
      assert run == run[..n] + [run[n]];
      CurrentRetires(run[..n], run[n], n);
    }
  }

  lemma {:induction false} CurrentElements(run: seq<Upsert>, n: nat, e: Edge)
    requires n <= |run|
    ensures e in Current(run, n) <==> exists i: nat :: i < n && !Superseded(run, i) && e in run[i].edges
  {
    if n > 0 { CurrentElements(run, n - 1, e); }
  }

  lemma {:induction false} SourcesElements(edges: seq<Edge>, source: string, target: string)
    ensures source in Sources(edges, target) <==> exists e :: e in edges && e.source == source && e.target == target
  {
    if edges != [] {
      var n := |edges| - 1;
      SourcesElements(edges[..n], source, target);
      assert edges == edges[..n] + [edges[n]];
    }
  }

  /** After any run, `neighbors` finds exactly the notes whose latest version links to the target. */
  lemma NeighborsScanLatest(run: seq<Upsert>, source: string, target: string)
    requires forall u :: u in run ==> OwnEdges(u)
    ensures source in Sources(EdgesAfter(run), target)
      <==> exists i: nat, e :: i < |run| && !Superseded(run, i) && e in run[i].edges
                               && e.source == source && e.target == target
  {
    EdgesAreCurrent(run);
    SourcesElements(EdgesAfter(run), source, target);
    forall e
      ensures e in EdgesAfter(run) <==> exists i: nat :: i < |run| && !Superseded(run, i) && e in run[i].edges
    {
      CurrentElements(run, |run|, e);
    }
  }

  /** Repeating an upsert changes nothing exactly when all its edges come from its own note. */
  lemma RepeatIff(edges: seq<Edge>, u: Upsert)
    ensures Upserted(Upserted(edges, u), u) == Upserted(edges, u) <==> OwnEdges(u)
  {
    var kept := Without(edges, u.key);
    WithoutConcat(kept, u.edges, u.key);
    WithoutTwice(edges, u.key);
    WithoutEmptyIff(u.edges, u.key);
    assert |Upserted(Upserted(edges, u), u)| == |kept| + |Without(u.edges, u.key)| + |u.edges|;
    if OwnEdges(u) { assert kept + [] == kept; }
  }

  lemma {:induction false} WithoutTwice(edges: seq<Edge>, source: string)
    ensures Without(Without(edges, source), source) == Without(edges, source)
  {
    WithoutAvoids(edges, source);
    WithoutAbsent(Without(edges, source), source);
  }

  lemma {:induction false} WithoutAvoids(edges: seq<Edge>, source: string)
    ensures forall e :: e in Without(edges, source) ==> e.source != source
  {
    if edges != [] { WithoutAvoids(edges[..|edges| - 1], source); }
  }

  lemma {:induction false} WithoutEmptyIff(edges: seq<Edge>, source: string)
    ensures Without(edges, source) == [] <==> forall e :: e in edges ==> e.source == source
  {
    if edges != [] {
      var n := |edges| - 1;
      WithoutEmptyIff(edges[..n], source);
      assert edges == edges[..n] + [edges[n]];
    }
  }
}
