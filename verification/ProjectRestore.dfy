/** From the project file to the end of the load. */
module ProjectRestore {
  import opened Graph
  import opened SessionSpec
  import opened TaskAccounting
  import opened RestoreSchedule
  import opened RestoreRuns
  import opened ClientDependency
  import opened ProjectFile
  import opened Sequences

  /** A project that has just been loaded from the elements of its file. */
  ghost function FromFile(es: seq<ClientElement>, taskIter: nat, forks: map<Id, nat>): State {
    State([], LoadedClients(es), Idle, 0, 0, 0, taskIter, forks, [])
  }

  /** Duplicates are refused, so removing one dependency later removes all of it. */
  lemma {:induction false} ParsedNoDup(visible: Deps, id: Id, ids: seq<Id>)
    ensures NoDup(ParsedDeps(visible, id, ids))
    ensures forall x <- ParsedDeps(visible, id, ids) :: x in ids
  {
    if ids != [] {
      var init := ids[..|ids| - 1];
      ParsedNoDup(visible, id, init);
      assert forall x <- init :: x in ids;
      assert ids[|ids| - 1] in ids;
    }
  }

  lemma LoadedClientFacts(es: seq<ClientElement>, i: nat)
    requires i < |es|
    ensures |LoadedClients(es)| == |es|
    ensures var c := LoadedClients(es)[i];
            && c.id == es[|es| - 1 - i].id && c.pending == 0 && c.kind == NoTask && c.progress == 0
            && c.pid == 0 && !c.restored && NoDup(c.deps)
  {
    var k := |es| - 1 - i;
    LoadedAt(es, k);
    hide LoadedClients;
    ParsedNoDup(GraphOf(LoadedClients(es[..k])), es[k].id, es[k].deps);
  }

  lemma LoadedIsParsed(es: seq<ClientElement>, taskIter: nat, forks: map<Id, nat>)
    requires DistinctElements(es) && 100 * |es| < U32
    ensures Parsed(FromFile(es, taskIter, forks))
  {
    hide LoadedClients, NoDup;
    LoadedSize(es);
    var cs, n := LoadedClients(es), |es|;
    forall i | 0 <= i < n
      ensures cs[i].id == es[n - 1 - i].id && cs[i].pending == 0 && cs[i].kind == NoTask && cs[i].progress == 0
      ensures cs[i].pid == 0 && !cs[i].restored && NoDup(cs[i].deps)
    {
      LoadedClientFacts(es, i);
    }
    assert DistinctIds(cs);
    assert LostOk(cs);
  }

  lemma {:induction false} GraphEdgeFrom(cs: seq<Client>, x: Id, y: Id) returns (k: nat)
    requires Edge(GraphOf(cs), x, y)
    ensures k < |cs| && cs[k].id == x && y in cs[k].deps
  {
    if cs[0].id == x {
      k := 0;
    } else {
      k := GraphEdgeFrom(cs[1..], x, y);
      k := k + 1;
    }
  }

  /** The roster keeps a part of each client's dependencies, all of them on clients of the project. */
  lemma RosterAcyclic(p: State)
    requires Parsed(p) && Acyclic(GraphOf(p.lost))
    ensures Acyclic(DepsOf(Roster(p)))
  {
    var g, b := GraphOf(p.lost), Roster(p);
    forall x, y | Edge(DepsOf(b), x, y)
      ensures Edge(g, x, y)
    {
      DepsEdge(b, x, y);
      var k :| 0 <= k < |p.lost| && p.lost[k].id == x;
      RosterAt(p, k);
      KeepListedMembers(p.lost, p.lost[k].deps);
      GraphAt(p.lost, k);
    }
    forall x
      ensures !Reaches(DepsOf(b), x, x)
    {
      if Reaches(DepsOf(b), x, x) {
        ReachesMonotone(DepsOf(b), g, x, x);
        assert false;
      }
    }
  }

  /** A self-dependency is never refused while its client is parsed. */
  lemma {:induction false} SelfDependencyStays(visible: Deps, id: Id, ids: seq<Id>)
    requires id !in visible && id in ids
    ensures id in ParsedDeps(visible, id, ids)
  {
    var init, last := ids[..|ids| - 1], ids[|ids| - 1];
    assert ids == init + [last];
    if last == id {
      ReachesFirstEdge(visible, id, id);
    } else {
      SelfDependencyStays(visible, id, init);
    }
  }

  lemma SelfDependencyLoaded(es: seq<ClientElement>, k: nat) returns (j: nat)
    requires DistinctElements(es) && k < |es| && es[k].id in es[k].deps
    ensures j < |LoadedClients(es)| && LoadedClients(es)[j].id == es[k].id && es[k].id in LoadedClients(es)[j].deps
  {
    j := |es| - 1 - k;
    LoadedAt(es, k);
    NotYetListed(es, k);
    SelfDependencyStays(GraphOf(LoadedClients(es[..k])), es[k].id, es[k].deps);
    hide LoadedClients, ParsedDeps, DistinctElements, GraphOf;
  }

  lemma SelfDependencyListed(p: State, j: nat)
    requires Parsed(p) && j < |p.lost| && p.lost[j].id in p.lost[j].deps
    ensures p.lost[j].id in Roster(p) && p.lost[j].id in Roster(p)[p.lost[j].id].deps
  {
    RosterAt(p, j);
    KeepListedMembers(p.lost, p.lost[j].deps);
    hide Roster, KeepListed;
    assert Listed(p.lost, p.lost[j].id);
  }

  /** So a file with a self-dependency makes a project with a cycle. */
  lemma {:induction false} SelfDependencyCycle(es: seq<ClientElement>, p: State, k: nat)
    requires DistinctElements(es) && k < |es| && es[k].id in es[k].deps
    requires Parsed(p) && p.lost == LoadedClients(es)
    ensures !Acyclic(DepsOf(Roster(p)))
  {
    hide *;
    var j := SelfDependencyLoaded(es, k);
    SelfDependencyListed(p, j);
    DepsEdge(Roster(p), es[k].id, es[k].id);
    EdgeReaches(DepsOf(Roster(p)), es[k].id, es[k].id);
    CycleIsCycle(DepsOf(Roster(p)), es[k].id);
  }

  lemma CycleIsCycle(g: Deps, x: Id)
    requires Reaches(g, x, x)
    ensures !Acyclic(g)
  {
  }

  // ------------------------------------------------------------------ the condition on the file

  /** The ids that do not lead back to the client. */
  ghost function Harmless(g: Deps, id: Id, ids: seq<Id>): seq<Id> {
    if ids == [] then []
    else Harmless(g, id, ids[..|ids| - 1]) + if Reaches(g, ids[|ids| - 1], id) then [] else [ids[|ids| - 1]]
  }

  lemma {:induction false} HarmlessAre(g: Deps, id: Id, ids: seq<Id>)
    ensures forall d :: d in Harmless(g, id, ids) <==> d in ids && !Reaches(g, d, id)
  {
    hide Reaches;
    if ids != [] {
      HarmlessAre(g, id, ids[..|ids| - 1]);
      assert ids == ids[..|ids| - 1] + [ids[|ids| - 1]];
    }
  }

  /** The dependencies that a file is left with: element by element, those that close no cycle so far. */
  ghost function FileDeps(es: seq<ClientElement>): Deps {
    if es == [] then map[]
    else
      var g, e := FileDeps(es[..|es| - 1]), es[|es| - 1];
      g[e.id := Harmless(g, e.id, e.deps)]
  }

  lemma SameReach(g: Deps, h: Deps)
    requires forall x, y :: Edge(g, x, y) <==> Edge(h, x, y)
    ensures forall x, y :: Reaches(g, x, y) <==> Reaches(h, x, y)
  {
    hide Edge, Reaches;
    forall x, y
      ensures Reaches(g, x, y) <==> Reaches(h, x, y)
    {
      if Reaches(g, x, y) { ReachesMonotone(g, h, x, y); }
      if Reaches(h, x, y) { ReachesMonotone(h, g, x, y); }
    }
  }

  lemma {:induction false} FileDepsAreLoaded(es: seq<ClientElement>)
    ensures forall x, y :: Edge(GraphOf(LoadedClients(es)), x, y) <==> Edge(FileDeps(es), x, y)
  {
    hide Edge, Reaches, Harmless, ParsedDeps;
    if es == [] {
      assert GraphOf(LoadedClients(es)) == map[] == FileDeps(es);
    } else {
      var init, e := es[..|es| - 1], es[|es| - 1];
      var before := LoadedClients(init);
      FileDepsAreLoaded(init);
      SameReach(GraphOf(before), FileDeps(init));
      LoadedOneMore(es);
      ParsedDepsAre(GraphOf(before), e.id, e.deps);
      HarmlessAre(FileDeps(init), e.id, e.deps);
      GraphPrepend(LoadedClient(e, before), before);
      var parsed, harmless := ParsedDeps(GraphOf(before), e.id, e.deps), Harmless(FileDeps(init), e.id, e.deps);
      assert GraphOf(LoadedClients(es)) == GraphOf(before)[e.id := parsed];
      assert FileDeps(es) == FileDeps(init)[e.id := harmless];
      SameUpdate(GraphOf(before), FileDeps(init), e.id, parsed, harmless, GraphOf(LoadedClients(es)), FileDeps(es));
    }
  }

  lemma SameUpdate(g: Deps, h: Deps, id: Id, a: seq<Id>, b: seq<Id>, g': Deps, h': Deps)
    requires forall x, y :: Edge(g, x, y) <==> Edge(h, x, y)
    requires (forall y :: y in a <==> y in b) && g' == g[id := a] && h' == h[id := b]
    ensures forall x, y :: Edge(g', x, y) <==> Edge(h', x, y)
  {
    forall x, y
      ensures Edge(g', x, y) <==> Edge(h', x, y)
    {
      assert x != id ==> (Edge(g, x, y) <==> Edge(h, x, y));
    }
  }

  lemma GraphPrepend(c: Client, cs: seq<Client>)
    ensures GraphOf([c] + cs) == GraphOf(cs)[c.id := c.deps]
  {
    assert ([c] + cs)[1..] == cs;
  }

  predicate HasState(e: ClientElement) {
    e.saved && (e.caps.configFile || e.caps.dataSet)
  }

  /** A saved data set is all the element has, and it is missing or empty. */
  predicate DataSetMissing(e: ClientElement) {
    e.saved && !e.caps.configFile && e.caps.dataSet && !e.caps.storeReady
  }

  /** Every client can be forked, none has a data set that is missing, and none is left with a dependency on
    one that has nothing to load. */
  ghost predicate FileStartable(es: seq<ClientElement>, forks: map<Id, nat>) {
    forall k :: 0 <= k < |es| ==>
      && ForkPid(forks, es[k].id) != 0 && !DataSetMissing(es[k])
      && forall j :: 0 <= j < |es| && Edge(FileDeps(es), es[k].id, es[j].id) ==> HasState(es[j])
  }

  lemma LoadedFlags(es: seq<ClientElement>, k: nat)
    requires k < |es|
    ensures |LoadedClients(es)| == |es|
    ensures var c := LoadedClients(es)[|es| - 1 - k];
            c.id == es[k].id && (Stateless(c) <==> !HasState(es[k])) && (Silent(c) <==> DataSetMissing(es[k]))
  {
    hide LoadedClients, ParsedDeps, GraphOf, Reaches, LastFirst;
    LoadedElement(es, k);
  }

  /** What the scheduler starts from, client by client. */
  lemma RosterElement(es: seq<ClientElement>, p: State, k: nat)
    requires DistinctElements(es) && Parsed(p) && p.lost == LoadedClients(es) && k < |es|
    ensures es[k].id in Roster(p)
    ensures var c := Roster(p)[es[k].id];
            && (Stateless(c) <==> !HasState(es[k])) && (Silent(c) <==> DataSetMissing(es[k]))
            && forall d :: d in c.deps <==> Edge(FileDeps(es), es[k].id, d) && Listed(p.lost, d)
  {
    hide LoadedClients, FileDeps, KeepListed, DistinctElements, Edge, Listed, Parsed, Roster, HasState, DataSetMissing;
    var i := |es| - 1 - k;
    LoadedFlags(es, k);
    RosterAt(p, i);
    KeepListedMembers(p.lost, p.lost[i].deps);
    LoadedEdges(es, p, i);
  }

  lemma LoadedEdges(es: seq<ClientElement>, p: State, i: nat)
    requires Parsed(p) && p.lost == LoadedClients(es) && i < |p.lost|
    ensures forall d :: Edge(FileDeps(es), p.lost[i].id, d) <==> d in p.lost[i].deps
  {
    hide LoadedClients, FileDeps, Edge;
    FileDepsAreLoaded(es);
    ParsedDistinct(p);
    GraphAt(p.lost, i);
    EdgesOf(GraphOf(p.lost), p.lost[i].id);
  }

  lemma ParsedDistinct(p: State)
    requires Parsed(p)
    ensures forall i, j :: 0 <= i < j < |p.lost| ==> p.lost[i].id != p.lost[j].id
  {
  }

  lemma EdgesOf(g: Deps, x: Id)
    requires x in g
    ensures forall d :: Edge(g, x, d) <==> d in g[x]
  {
  }

  lemma ListedElement(es: seq<ClientElement>, d: Id) returns (j: nat)
    requires Listed(LoadedClients(es), d)
    ensures j < |es| && es[j].id == d
  {
    LoadedSize(es);
    hide LoadedClients;
    var i :| 0 <= i < |LoadedClients(es)| && LoadedClients(es)[i].id == d;
    j := |es| - 1 - i;
    LoadedFlags(es, j);
  }

  lemma ElementListed(es: seq<ClientElement>, j: nat)
    requires j < |es|
    ensures Listed(LoadedClients(es), es[j].id)
  {
    LoadedFlags(es, j);
    hide LoadedClients;
    assert LoadedClients(es)[|es| - 1 - j].id == es[j].id;
  }

  lemma RosterIds(es: seq<ClientElement>, p: State, id: Id) returns (k: nat)
    requires Parsed(p) && p.lost == LoadedClients(es) && id in Roster(p)
    ensures k < |es| && es[k].id == id
  {
    hide LoadedClients;
    var i :| 0 <= i < |p.lost| && p.lost[i].id == id;
    assert Listed(p.lost, id);
    k := ListedElement(es, id);
  }

  lemma StartableFile(es: seq<ClientElement>, p: State)
    requires DistinctElements(es) && Parsed(p) && p.lost == LoadedClients(es)
    ensures Startable(Roster(p), p.forks) <==> FileStartable(es, p.forks)
  {
    hide LoadedClients, FileDeps, Parsed, Roster, Edge, DistinctElements, Stateless, Silent, HasState, DataSetMissing;
    hide Listed;
    if Startable(Roster(p), p.forks) {
      forall k | 0 <= k < |es|
        ensures ForkPid(p.forks, es[k].id) != 0 && !DataSetMissing(es[k])
        ensures forall j :: 0 <= j < |es| && Edge(FileDeps(es), es[k].id, es[j].id) ==> HasState(es[j])
      {
        RosterElement(es, p, k);
        forall j | 0 <= j < |es| && Edge(FileDeps(es), es[k].id, es[j].id)
          ensures HasState(es[j])
        {
          ElementListed(es, j);
          RosterElement(es, p, j);
        }
      }
    }
    if FileStartable(es, p.forks) {
      forall id | id in Roster(p)
        ensures ForkPid(p.forks, id) != 0 && !Silent(Roster(p)[id])
        ensures forall d <- Roster(p)[id].deps :: d in Roster(p) && !Stateless(Roster(p)[d])
      {
        var k := RosterIds(es, p, id);
        RosterElement(es, p, k);
        forall d | d in Roster(p)[id].deps
          ensures d in Roster(p) && !Stateless(Roster(p)[d])
        {
          var j := ListedElement(es, d);
          RosterElement(es, p, j);
        }
      }
    }
  }

  /** The whole way from the file to ProjectLoaded: a project can be announced as loaded exactly when
    the file has clients, none of them depends on itself, each of them can be forked, none has a saved
    data set that is missing or empty, and none is left with a dependency on one that has nothing to
    load. Other cycles in the file do no harm: loading refuses one edge of each. */
  lemma FileCanBeLoadedExactlyWhen(es: seq<ClientElement>, taskIter: nat, forks: map<Id, nat>)
    requires DistinctElements(es) && 100 * |es| < U32
    ensures var p := FromFile(es, taskIter, forks);
            Parsed(p) && (CanBeLoaded(p) <==> es != [] && NoSelfDependency(es) && FileStartable(es, forks))
  {
    var p := FromFile(es, taskIter, forks);
    LoadedIsParsed(es, taskIter, forks);
    LoadedSize(es);
    if NoSelfDependency(es) {
      LoadedAcyclic(es);
      RosterAcyclic(p);
    } else {
      var k :| 0 <= k < |es| && es[k].id in es[k].deps;
      SelfDependencyCycle(es, p, k);
    }
    hide CanBeLoaded, Parsed, Roster, Startable, Acyclic, FileStartable;
    LoadedExactlyWhen(p);
    StartableFile(es, p);
  }

  // ------------------------------------------------------------------ only genuine cycles are refused

  function FileGraph(es: seq<ClientElement>): Deps
    requires DistinctElements(es)
  {
    map k | 0 <= k < |es| :: es[k].id := es[k].deps
  }

  lemma {:induction false} ParsedKeepsAll(f: Deps, visible: Deps, id: Id, ids: seq<Id>)
    requires Acyclic(f) && SubgraphOf(visible, f) && forall d <- ids :: Edge(f, id, d)
    ensures forall x :: x in ParsedDeps(visible, id, ids) <==> x in ids
  {
    if ids != [] {
      var init, dep := ids[..|ids| - 1], ids[|ids| - 1];
      assert ids == init + [dep];
      ParsedKeepsAll(f, visible, id, init);
      if Reaches(visible, dep, id) {
        ReachesMonotone(visible, f, dep, id);
        EdgeReaches(f, id, dep);
        ReachesTransitive(f, id, dep, id);
        assert false;
      }
    }
  }

  lemma VisibleInFile(es: seq<ClientElement>, k: nat)
    requires DistinctElements(es) && k < |es|
    ensures SubgraphOf(GraphOf(LoadedClients(es[..k])), FileGraph(es))
  {
    hide LoadedClients, GraphOf, FileGraph, Edge;
    forall x, y | Edge(GraphOf(LoadedClients(es[..k])), x, y)
      ensures Edge(FileGraph(es), x, y)
    {
      var i := GraphEdgeFrom(LoadedClients(es[..k]), x, y);
      var j := LoadedFrom(es, k, i, y);
      FileEdge(es, j, y);
    }
  }

  /** A dependency of a loaded client stands in its element. */
  lemma LoadedFrom(es: seq<ClientElement>, k: nat, i: nat, y: Id) returns (j: nat)
    requires k < |es| && i < |LoadedClients(es[..k])| && y in LoadedClients(es[..k])[i].deps
    ensures j < k && es[j].id == LoadedClients(es[..k])[i].id && y in es[j].deps
  {
    hide LoadedClients, ParsedDeps, NoDup;
    LoadedSize(es[..k]);
    j := k - 1 - i;
    LoadedAt(es[..k], j);
    ParsedNoDup(GraphOf(LoadedClients(es[..k][..j])), es[j].id, es[j].deps);
  }

  lemma FileEdge(es: seq<ClientElement>, j: nat, y: Id)
    requires DistinctElements(es) && j < |es|
    ensures Edge(FileGraph(es), es[j].id, y) <==> y in es[j].deps
  {
  }

  /** A file whose own graph is acyclic loses no dependency. */
  lemma AcyclicFileLosesNothing(es: seq<ClientElement>, k: nat)
    requires DistinctElements(es) && k < |es| && Acyclic(FileGraph(es))
    ensures |LoadedClients(es)| == |es| && LoadedClients(es)[|es| - 1 - k].id == es[k].id
    ensures forall x :: x in LoadedClients(es)[|es| - 1 - k].deps <==> x in es[k].deps
  {
    LoadedAt(es, k);
    VisibleInFile(es, k);
    hide FileGraph, LoadedClients, Acyclic, SubgraphOf;
    forall d | d in es[k].deps
      ensures Edge(FileGraph(es), es[k].id, d)
    {
      FileEdge(es, k, d);
    }
    ParsedKeepsAll(FileGraph(es), GraphOf(LoadedClients(es[..k])), es[k].id, es[k].deps);
  }
}
