/** Loading the clients of a project file and what their dependency graph looks like. */
module ProjectFile {
  import opened Graph
  import opened SessionSpec
  import opened ClientDependency

  /** A client element of the project file; `deps` are the ids under its dependencies element. */
  datatype ClientElement = ClientElement(id: Id, caps: Caps, saved: bool, deps: seq<Id>)

  /** A client's list after its dependency ids have been added one by one. */
  ghost function ParsedDeps(visible: Deps, id: Id, ids: seq<Id>): seq<Id> {
    if ids == [] then []
    else AddedDeps(visible, id, ParsedDeps(visible, id, ids[..|ids| - 1]), ids[|ids| - 1])
  }

  /** Every search made while the ids are added comes to an end. */
  ghost predicate SearchesEnd(visible: Deps, id: Id, ids: seq<Id>) {
    forall i :: 0 <= i < |ids| ==> ids[i] in ParsedDeps(visible, id, ids[..i]) || Ends(visible, id, ids[i])
  }

  ghost function LoadedClient(e: ClientElement, before: seq<Client>): Client {
    Client(e.id, e.caps, e.saved, false, false, 0, 0, ParsedDeps(GraphOf(before), e.id, e.deps), [], 0, NoTask, 0)
  }

  /** The lost clients after the elements have been loaded in order; each goes to the front. */
  ghost function LoadedClients(es: seq<ClientElement>): seq<Client> {
    if es == [] then []
    else
      var before := LoadedClients(es[..|es| - 1]);
      [LoadedClient(es[|es| - 1], before)] + before
  }

  predicate NoSelfDependency(es: seq<ClientElement>) {
    forall k :: 0 <= k < |es| ==> es[k].id !in es[k].deps
  }

  predicate DistinctElements(es: seq<ClientElement>) {
    forall i, j :: 0 <= i < j < |es| ==> es[i].id != es[j].id
  }

  lemma {:induction false} LoadedSize(es: seq<ClientElement>)
    ensures |LoadedClients(es)| == |es|
  {
    if es != [] { LoadedSize(es[..|es| - 1]); }
  }

  lemma LoadedOneMore(es: seq<ClientElement>)
    requires es != []
    ensures var init := es[..|es| - 1];
            LoadedClients(es) == [LoadedClient(es[|es| - 1], LoadedClients(init))] + LoadedClients(init)
  {
  }

  /** Position `k` of the file ends up at position `|es| - 1 - k` of the list. */
  lemma {:induction false} LoadedAt(es: seq<ClientElement>, k: nat)
    requires k < |es|
    ensures |LoadedClients(es)| == |es|
    ensures LoadedClients(es)[|es| - 1 - k] == LoadedClient(es[k], LoadedClients(es[..k]))
  {
    hide *;
    LoadedSize(es);
    LoadedOneMore(es);
    var init := es[..|es| - 1];
    LoadedSize(init);
    if k < |init| {
      LoadedAt(init, k);
      assert init[..k] == es[..k] && init[k] == es[k];
    } else {
      assert init == es[..k];
    }
  }

  // ------------------------------------------------------------------ what an element becomes

  function FirstAt(ids: seq<Id>, d: Id): nat {
    if ids == [] || ids[0] == d then 0 else 1 + FirstAt(ids[1..], d)
  }

  lemma {:induction false} FirstAtInit(ids: seq<Id>, x: Id, d: Id)
    ensures FirstAt(ids, d) <= |ids| && (FirstAt(ids, d) < |ids| <==> d in ids)
    ensures FirstAt(ids + [x], d) == if d in ids then FirstAt(ids, d) else if d == x then |ids| else |ids| + 1
  {
    if ids == [] {
      assert [x][1..] == [];
    } else {
      assert (ids + [x])[1..] == ids[1..] + [x] && (ids + [x])[0] == ids[0];
      assert d in ids <==> d == ids[0] || d in ids[1..];
      FirstAtInit(ids[1..], x, d);
    }
  }

  /** Listed later in the file comes first in the list. */
  predicate LastFirst(deps: seq<Id>, ids: seq<Id>) {
    forall i, j :: 0 <= i < j < |deps| ==> FirstAt(ids, deps[j]) < FirstAt(ids, deps[i])
  }

  /** Of the ids in the file those stay that do not lead back to the client, in reverse order. */
  lemma {:induction false} ParsedDepsAre(visible: Deps, id: Id, ids: seq<Id>)
    ensures forall d :: d in ParsedDeps(visible, id, ids) <==> d in ids && !Reaches(visible, d, id)
    ensures LastFirst(ParsedDeps(visible, id, ids), ids)
  {
    hide Reaches, FirstAt;
    if ids != [] {
      var init, x := ids[..|ids| - 1], ids[|ids| - 1];
      ParsedDepsAre(visible, id, init);
      assert ids == init + [x];
      var was, now := ParsedDeps(visible, id, init), ParsedDeps(visible, id, ids);
      forall i, j | 0 <= i < j < |now|
        ensures FirstAt(ids, now[j]) < FirstAt(ids, now[i])
      {
        FirstAtInit(init, x, now[i]);
        FirstAtInit(init, x, now[j]);
        if now != was { assert forall k :: 0 < k < |now| ==> now[k] == was[k - 1]; }
      }
    }
  }

  /** What the file says of a client is what is loaded: its identity, its abilities, whether it was saved. It
    is lost, unnamed, and has neither task nor store; and of its dependencies those stay that do not
    lead back to it through the clients loaded before. */
  lemma LoadedElement(es: seq<ClientElement>, k: nat)
    requires k < |es|
    ensures |LoadedClients(es)| == |es|
    ensures var c := LoadedClients(es)[|es| - 1 - k];
            && c.id == es[k].id && c.caps == es[k].caps && c.saved == es[k].saved
            && !c.restored && !c.hasStore && c.name == c.pid == c.pending == c.progress == 0
            && c.kind == NoTask && c.unsat == []
            && (forall d :: d in c.deps <==>
                  d in es[k].deps && !Reaches(GraphOf(LoadedClients(es[..k])), d, es[k].id))
            && LastFirst(c.deps, es[k].deps)
  {
    LoadedAt(es, k);
    hide LoadedClients, GraphOf, Reaches;
    ParsedDepsAre(GraphOf(LoadedClients(es[..k])), es[k].id, es[k].deps);
  }

  lemma NotYetListed(es: seq<ClientElement>, k: nat)
    requires DistinctElements(es) && k < |es|
    ensures es[k].id !in GraphOf(LoadedClients(es[..k]))
  {
    var before := es[..k];
    var cs := LoadedClients(before);
    hide LoadedClients, GraphOf;
    LoadedSize(before);
    forall i | 0 <= i < |cs|
      ensures cs[i].id != es[k].id
    {
      LoadedAt(before, k - 1 - i);
      assert before[k - 1 - i] == es[k - 1 - i];
    }
    GraphKeys(cs, es[k].id);
  }

  /** Adding ids one by one keeps the graph acyclic, provided no id is the client's own. */
  lemma {:induction false} ParsedAcyclic(visible: Deps, id: Id, ids: seq<Id>)
    requires Acyclic(visible) && id !in visible && id !in ids
    ensures Acyclic(visible[id := ParsedDeps(visible, id, ids)])
  {
    if ids == [] {
      var g := visible[id := []];
      forall x
        ensures !Reaches(g, x, x)
      {
        if Reaches(g, x, x) {
          ReachesMonotone(g, visible, x, x);
          assert false;
        }
      }
    } else {
      var init := ids[..|ids| - 1];
      ParsedAcyclic(visible, id, init);
      var g := visible[id := ParsedDeps(visible, id, init)];
      AddWithAllSourcesVisible(g, visible, id, ids[|ids| - 1]);
      assert g[id := AddedDeps(visible, id, g[id], ids[|ids| - 1])] == visible[id := ParsedDeps(visible, id, ids)];
    }
  }

  /** A project file without self-dependencies loads into an acyclic dependency graph, whatever
    cycles the file itself contains. */
  lemma {:induction false} LoadedAcyclic(es: seq<ClientElement>)
    requires DistinctElements(es) && NoSelfDependency(es)
    ensures Acyclic(GraphOf(LoadedClients(es)))
  {
    if es == [] {
      forall x
        ensures !Reaches(map[], x, x)
      {
        ReachesFirstEdge(map[], x, x);
      }
    } else {
      var k := |es| - 1;
      LoadedAcyclic(es[..k]);
      NotYetListed(es, k);
      var before := LoadedClients(es[..k]);
      ParsedAcyclic(GraphOf(before), es[k].id, es[k].deps);
      assert ([LoadedClient(es[k], before)] + before)[1..] == before;
    }
  }

  /** Loading the clients of the file comes to an end. */
  ghost predicate LoadEnds(es: seq<ClientElement>) {
    forall k :: 0 <= k < |es| ==> SearchesEnd(GraphOf(LoadedClients(es[..k])), es[k].id, es[k].deps)
  }

  /** Without self-dependencies loading always ends. */
  lemma SoundFileLoads(es: seq<ClientElement>)
    requires DistinctElements(es) && NoSelfDependency(es)
    ensures LoadEnds(es)
  {
    hide LoadedClients, GraphOf, ParsedDeps, Acyclic, Ends;
    forall k | 0 <= k < |es|
      ensures SearchesEnd(GraphOf(LoadedClients(es[..k])), es[k].id, es[k].deps)
    {
      assert forall i :: 0 <= i < k ==> es[..k][i] == es[i];
      LoadedAcyclic(es[..k]);
      forall i | 0 <= i < |es[k].deps|
        ensures Ends(GraphOf(LoadedClients(es[..k])), es[k].id, es[k].deps[i])
      {
        AcyclicSearchEnds(GraphOf(LoadedClients(es[..k])), es[k].id, es[k].deps[i]);
      }
    }
  }
}
