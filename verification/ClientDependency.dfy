/** Client objects and the operations on their dependency lists. */
module ClientDependency {
  import opened Graph
  import opened SessionSpec
  import opened Sequences

  /** A client record. Lists are sequences, first entry first. */
  class LashClient {
    const id: Id
    const caps: Caps
    var saved: bool
    var restored: bool
    var hasStore: bool
    var name: nat
    var pid: nat
    var deps: seq<Id>
    var unsat: seq<Id>
    var pending: nat
    var kind: Kind
    var progress: nat

    function View(): Client
      reads this
    {
      Client(id, caps, saved, restored, hasStore, name, pid, deps, unsat, pending, kind, progress)
    }

    /** client_new, with the identity and flags the caller fills in. */
    constructor (id: Id, caps: Caps, saved: bool)
      ensures View() == Client(id, caps, saved, false, false, 0, 0, [], [], 0, NoTask, 0)
    {
      this.id, this.caps, this.saved := id, caps, saved;
      restored, hasStore, name, pid := false, false, 0, 0;
      deps, unsat := [], [];
      pending, kind, progress := 0, NoTask, 0;
    }
  }

  function Views(cs: seq<LashClient>): (vs: seq<Client>)
    reads cs
    ensures |vs| == |cs| && forall k :: 0 <= k < |cs| ==> vs[k] == cs[k].View()
  {
    if cs == [] then [] else Views(cs[..|cs| - 1]) + [cs[|cs| - 1].View()]
  }

  /** The graph lookup finds the first client with an id. */
  lemma {:induction false} GraphAt(cs: seq<Client>, k: nat)
    requires k < |cs| && forall j :: 0 <= j < k ==> cs[j].id != cs[k].id
    ensures cs[k].id in GraphOf(cs) && GraphOf(cs)[cs[k].id] == cs[k].deps
  {
    if k > 0 {
      assert cs[1..][k - 1] == cs[k] && cs[0].id != cs[k].id;
      GraphAt(cs[1..], k - 1);
    }
  }

  lemma {:induction false} GraphKeys(cs: seq<Client>, x: Id)
    ensures x in GraphOf(cs) <==> Listed(cs, x)
  {
    if cs != [] {
      GraphKeys(cs[1..], x);
      if Listed(cs[1..], x) {
        var k :| 0 <= k < |cs[1..]| && cs[1..][k].id == x;
        assert cs[k + 1].id == x;
      }
      if Listed(cs, x) {
        var k :| 0 <= k < |cs| && cs[k].id == x;
        assert k > 0 ==> cs[1..][k - 1].id == x;
      }
    }
  }

  /** project_get_client_by_id: the first client with the id. */
  method GetClientById(clientList: seq<LashClient>, id: Id) returns (client: LashClient?, ghost k: nat)
    ensures client != null <==> Listed(Views(clientList), id)
    ensures client != null ==> k < |clientList| && clientList[k] == client && client.id == id
                               && forall j :: 0 <= j < k ==> clientList[j].id != id
  {
    client, k := null, 0;
    var i := 0;
    while i < |clientList|
      invariant 0 <= i <= |clientList|
      invariant forall j :: 0 <= j < i ==> clientList[j].id != id
    {
      if clientList[i].id == id {
        assert Views(clientList)[i].id == id;
        return clientList[i], i;
      }
      i := i + 1;
    }
  }

  // ------------------------------------------------------------------ the search, with a bounded depth

  /** The recursive search with a bound on its call depth; `Unknown` means that the bound was hit. */
  datatype Verdict = Unknown | Known(found: bool)

  function SearchList(g: Deps, orig: Id, deps: seq<Id>, depth: nat): Verdict
    decreases depth, |deps|, 0
  {
    if deps == [] then Known(false)
    else if deps[0] == orig then Known(true)
    else
      match SearchFrom(g, orig, deps[0], depth)
      case Unknown => Unknown
      case Known(true) => Known(true)
      case Known(false) => SearchList(g, orig, deps[1..], depth)
  }

  function SearchFrom(g: Deps, orig: Id, newId: Id, depth: nat): Verdict
    decreases depth, 0, 1
  {
    if depth == 0 then Unknown
    else if newId !in g then Known(false)
    else SearchList(g, orig, g[newId], depth - 1)
  }

  /** The search returns. */
  ghost predicate Ends(g: Deps, orig: Id, newId: Id) {
    exists depth :: SearchFrom(g, orig, newId, depth).Known?
  }

  ghost predicate LeadsTo(g: Deps, a: Id, b: Id) {
    a == b || Reaches(g, a, b)
  }

  lemma {:induction false} ListSound(g: Deps, orig: Id, deps: seq<Id>, depth: nat)
    requires SearchList(g, orig, deps, depth).Known?
    ensures SearchList(g, orig, deps, depth).found <==> exists i :: 0 <= i < |deps| && LeadsTo(g, deps[i], orig)
    decreases depth, |deps|, 0
  {
    if deps != [] && deps[0] != orig {
      SearchSound(g, orig, deps[0], depth);
      if !SearchFrom(g, orig, deps[0], depth).found {
        ListSound(g, orig, deps[1..], depth);
        assert forall i :: 1 <= i < |deps| ==> deps[i] == deps[1..][i - 1];
      }
    }
  }

  /** Whenever the search returns, its answer is right: a path of one or more edges leads from
    `newId` to `orig`, or none does. */
  lemma {:induction false} SearchSound(g: Deps, orig: Id, newId: Id, depth: nat)
    requires SearchFrom(g, orig, newId, depth).Known?
    ensures SearchFrom(g, orig, newId, depth).found <==> Reaches(g, newId, orig)
    decreases depth, 0, 1
  {
    ReachesFirstEdge(g, newId, orig);
    if newId in g {
      ListSound(g, orig, g[newId], depth - 1);
      assert forall i :: 0 <= i < |g[newId]| ==> Edge(g, newId, g[newId][i]);
    }
  }

  lemma {:induction false} ListUnknown(g: Deps, orig: Id, deps: seq<Id>, d: Id, depth: nat)
    requires d in deps && SearchFrom(g, orig, d, depth) == Unknown
    requires forall i :: 0 <= i < |deps| ==> !LeadsTo(g, deps[i], orig)
    ensures SearchList(g, orig, deps, depth) == Unknown
  {
    if SearchFrom(g, orig, deps[0], depth).Known? {
      SearchSound(g, orig, deps[0], depth);
      ListUnknown(g, orig, deps[1..], d, depth);
    }
  }

  /** A search that comes to a cycle without finding what it looks for gets to any depth. */
  lemma {:induction false} SearchUnknown(g: Deps, orig: Id, a: Id, x: Id, depth: nat)
    requires Reaches(g, x, x) && LeadsTo(g, a, x) && !Reaches(g, a, orig)
    ensures SearchFrom(g, orig, a, depth) == Unknown
    decreases depth
  {
    if depth > 0 {
      ReachesFirstEdge(g, a, x);
      ReachesFirstEdge(g, a, orig);
      var d :| Edge(g, a, d) && LeadsTo(g, d, x);
      SearchUnknown(g, orig, d, x, depth - 1);
      assert forall i :: 0 <= i < |g[a]| ==> Edge(g, a, g[a][i]);
      ListUnknown(g, orig, g[a], d, depth - 1);
    }
  }

  lemma {:induction false} ListKnown(g: Deps, orig: Id, deps: seq<Id>, depth: nat)
    requires forall i :: 0 <= i < |deps| ==> SearchFrom(g, orig, deps[i], depth).Known?
    ensures SearchList(g, orig, deps, depth).Known?
  {
    if deps != [] { ListKnown(g, orig, deps[1..], depth); }
  }

  /** No cycle can be reached from `a`. */
  ghost predicate CycleFree(g: Deps, a: Id) {
    forall x :: LeadsTo(g, a, x) ==> !Reaches(g, x, x)
  }

  /** A search that can come to no cycle goes no deeper than there are reachable ids. */
  lemma {:induction false} SearchKnown(g: Deps, orig: Id, a: Id, depth: nat)
    requires CycleFree(g, a) && depth > |ReachSet(g, a)|
    ensures SearchFrom(g, orig, a, depth).Known?
    decreases depth
  {
    if a in g {
      forall i | 0 <= i < |g[a]|
        ensures SearchFrom(g, orig, g[a][i], depth - 1).Known?
      {
        var d := g[a][i];
        assert Edge(g, a, d);
        StepCycleFree(g, a, d);
        SmallerSet(ReachSet(g, d), ReachSet(g, a));
        SearchKnown(g, orig, d, depth - 1);
      }
      ListKnown(g, orig, g[a], depth - 1);
    }
  }

  lemma StepCycleFree(g: Deps, a: Id, d: Id)
    requires CycleFree(g, a) && Edge(g, a, d)
    ensures CycleFree(g, d) && ReachSet(g, d) < ReachSet(g, a)
  {
    EdgeReaches(g, a, d);
    forall x | LeadsTo(g, d, x)
      ensures Reaches(g, a, x)
    {
      if d != x { ReachesTransitive(g, a, d, x); }
    }
    assert d in ReachSet(g, a) && d !in ReachSet(g, d);
    assert forall x :: x in ReachSet(g, d) ==> LeadsTo(g, d, x);
  }

  lemma {:induction false} SmallerSet(a: set<Id>, b: set<Id>)
    requires a < b
    ensures |a| < |b|
  {
    var x :| x in b && x !in a;
    SubsetSize(a, b - {x});
  }

  /** A search that does not find what it looks for ends exactly if it can come to no cycle. */
  lemma FruitlessSearchEndsExactlyWhen(g: Deps, orig: Id, newId: Id)
    requires !Reaches(g, newId, orig)
    ensures Ends(g, orig, newId) <==> CycleFree(g, newId)
  {
    if CycleFree(g, newId) {
      SearchKnown(g, orig, newId, |ReachSet(g, newId)| + 1);
    } else {
      var x :| LeadsTo(g, newId, x) && Reaches(g, x, x);
      forall depth ensures SearchFrom(g, orig, newId, depth) == Unknown { SearchUnknown(g, orig, newId, x, depth); }
    }
  }

  /** The search comes back from this dependency without having found anything. */
  ghost predicate Passes(g: Deps, orig: Id, d: Id) {
    d != orig && !Reaches(g, d, orig) && CycleFree(g, d)
  }

  /** The search gets to the `i`-th dependency. */
  ghost predicate GetsTo(g: Deps, orig: Id, deps: seq<Id>, i: nat) {
    i < |deps| && forall j :: 0 <= j < i ==> Passes(g, orig, deps[j])
  }

  ghost predicate StepFirst(g: Deps, orig: Id, a: Id, d: Id) {
    a in g && exists i: nat :: GetsTo(g, orig, g[a], i) && g[a][i] == d
  }

  /** A path on which the search gets to every step. */
  ghost predicate IsFirstPath(g: Deps, orig: Id, p: seq<Id>) {
    |p| >= 2 && forall k :: 0 <= k < |p| - 1 ==> StepFirst(g, orig, p[k], p[k + 1])
  }

  /** Some path to `orig` has, at each step, nothing listed before the dependency it takes but dependencies
    that lead neither to `orig` nor to a cycle. */
  ghost predicate FoundFirst(g: Deps, orig: Id, newId: Id) {
    exists p :: IsFirstPath(g, orig, p) && p[0] == newId && p[|p| - 1] == orig
  }

  lemma {:induction false} ListDeeper(g: Deps, orig: Id, deps: seq<Id>, depth: nat, more: nat)
    requires SearchList(g, orig, deps, depth).Known? && depth <= more
    ensures SearchList(g, orig, deps, more) == SearchList(g, orig, deps, depth)
    decreases depth, |deps|, 0
  {
    if deps != [] && deps[0] != orig {
      SearchDeeper(g, orig, deps[0], depth, more);
      if !SearchFrom(g, orig, deps[0], depth).found { ListDeeper(g, orig, deps[1..], depth, more); }
    }
  }

  /** An answer does not depend on the bound. */
  lemma {:induction false} SearchDeeper(g: Deps, orig: Id, newId: Id, depth: nat, more: nat)
    requires SearchFrom(g, orig, newId, depth).Known? && depth <= more
    ensures SearchFrom(g, orig, newId, more) == SearchFrom(g, orig, newId, depth)
    decreases depth, 0, 1
  {
    if newId in g { ListDeeper(g, orig, g[newId], depth - 1, more - 1); }
  }

  ghost predicate Finds(g: Deps, orig: Id, d: Id, depth: nat) {
    d == orig || SearchFrom(g, orig, d, depth) == Known(true)
  }

  lemma {:induction false} ListFinds(g: Deps, orig: Id, deps: seq<Id>, i: nat, depth: nat) returns (more: nat)
    requires GetsTo(g, orig, deps, i) && Finds(g, orig, deps[i], depth)
    ensures SearchList(g, orig, deps, more) == Known(true)
  {
    if i == 0 {
      more := depth;
    } else {
      var d, tail := deps[0], deps[1..];
      var bound := |ReachSet(g, d)| + 1;
      SearchKnown(g, orig, d, bound);
      SearchSound(g, orig, d, bound);
      assert forall j :: 0 <= j < i - 1 ==> tail[j] == deps[j + 1];
      var depth1 := ListFinds(g, orig, tail, i - 1, depth);
      more := if bound < depth1 then depth1 else bound;
      SearchDeeper(g, orig, d, bound, more);
      ListDeeper(g, orig, tail, depth1, more);
    }
  }

  lemma {:induction false} FirstPathIsFound(g: Deps, orig: Id, p: seq<Id>) returns (depth: nat)
    requires IsFirstPath(g, orig, p) && p[|p| - 1] == orig
    ensures SearchFrom(g, orig, p[0], depth) == Known(true)
    decreases |p|
  {
    assert StepFirst(g, orig, p[0], p[0 + 1]);
    var i: nat :| GetsTo(g, orig, g[p[0]], i) && g[p[0]][i] == p[1];
    depth := 0;
    if |p| > 2 {
      var q := p[1..];
      forall k | 0 <= k < |q| - 1
        ensures StepFirst(g, orig, q[k], q[k + 1])
      {
        assert StepFirst(g, orig, p[k + 1], p[(k + 1) + 1]);
      }
      depth := FirstPathIsFound(g, orig, q);
    }
    depth := ListFinds(g, orig, g[p[0]], i, depth);
    depth := depth + 1;
  }

  lemma {:induction false} ListFoundAt(g: Deps, orig: Id, deps: seq<Id>, depth: nat) returns (i: nat)
    requires SearchList(g, orig, deps, depth) == Known(true)
    ensures GetsTo(g, orig, deps, i) && Finds(g, orig, deps[i], depth)
  {
    if Finds(g, orig, deps[0], depth) {
      i := 0;
    } else {
      SearchSound(g, orig, deps[0], depth);
      FruitlessSearchEndsExactlyWhen(g, orig, deps[0]);
      i := ListFoundAt(g, orig, deps[1..], depth);
      i := i + 1;
      assert forall j :: 1 <= j < |deps| ==> deps[j] == deps[1..][j - 1];
    }
  }

  lemma {:induction false} FoundIsFirstPath(g: Deps, orig: Id, a: Id, depth: nat) returns (p: seq<Id>)
    requires SearchFrom(g, orig, a, depth) == Known(true)
    ensures IsFirstPath(g, orig, p) && p[0] == a && p[|p| - 1] == orig
    decreases depth
  {
    var i := ListFoundAt(g, orig, g[a], depth - 1);
    var d := g[a][i];
    assert StepFirst(g, orig, a, d);
    if d == orig {
      p := [a, d];
    } else {
      var q := FoundIsFirstPath(g, orig, d, depth - 1);
      p := [a] + q;
      forall k | 1 <= k < |p| - 1
        ensures StepFirst(g, orig, p[k], p[k + 1])
      {
        assert StepFirst(g, orig, q[k - 1], q[(k - 1) + 1]);
      }
    }
  }

  /** When a search ends, on any graph. If there is nothing to find, it must come to no cycle; if there is,
    it must find it before it comes to one, which depends on the order of the dependencies. */
  lemma SearchEndsExactlyWhen(g: Deps, orig: Id, newId: Id)
    ensures Ends(g, orig, newId)
            <==> if Reaches(g, newId, orig) then FoundFirst(g, orig, newId) else CycleFree(g, newId)
  {
    if !Reaches(g, newId, orig) {
      FruitlessSearchEndsExactlyWhen(g, orig, newId);
    } else {
      if Ends(g, orig, newId) {
        var depth :| SearchFrom(g, orig, newId, depth).Known?;
        SearchSound(g, orig, newId, depth);
        var p := FoundIsFirstPath(g, orig, newId, depth);
      }
      if FoundFirst(g, orig, newId) {
        var p :| IsFirstPath(g, orig, p) && p[0] == newId && p[|p| - 1] == orig;
        var depth := FirstPathIsFound(g, orig, p);
      }
    }
  }

  /** A client that depends on itself stops a search only where the search gets to that: it does not end if
    the client is listed first among its own dependencies, and it ends if what is looked for is. */
  lemma SelfDependencyInOrder(a: Id, b: Id)
    requires a != b
    ensures Ends(map[a := [b, a]], b, a) && !Ends(map[a := [a, b]], b, a)
  {
    var g, h := map[a := [b, a]], map[a := [a, b]];
    assert SearchFrom(g, b, a, 1) == Known(true);
    if depth: nat :| SearchFrom(h, b, a, depth).Known? { SearchStaysUnknown(h, a, b, depth); }
  }

  lemma {:induction false} SearchStaysUnknown(g: Deps, a: Id, orig: Id, depth: nat)
    requires a in g && g[a] != [] && g[a][0] == a && orig != a
    ensures SearchFrom(g, orig, a, depth) == Unknown
  {
    if depth > 0 { SearchStaysUnknown(g, a, orig, depth - 1); }
  }

  /** On an acyclic graph every search ends, with the right answer. */
  lemma AcyclicSearchEnds(g: Deps, orig: Id, newId: Id)
    requires Acyclic(g)
    ensures SearchFrom(g, orig, newId, |ReachSet(g, newId)| + 1) == Known(Reaches(g, newId, orig))
    ensures Ends(g, orig, newId)
  {
    SearchKnown(g, orig, newId, |ReachSet(g, newId)| + 1);
    SearchSound(g, orig, newId, |ReachSet(g, newId)| + 1);
  }

  /** client_dependency_find_circular: does what the bounded search does, for any bound at which that
    one ends; so it answers exactly whether one or more dependency edges lead from `newId` to
    `origId`. */
  method FindCircular(clientList: seq<LashClient>, origId: Id, newId: Id, ghost depth: nat) returns (found: bool)
    requires SearchFrom(GraphOf(Views(clientList)), origId, newId, depth).Known?
    ensures SearchFrom(GraphOf(Views(clientList)), origId, newId, depth) == Known(found)
    ensures found <==> Reaches(GraphOf(Views(clientList)), newId, origId)
    decreases depth
  {
    hide GraphOf, Reaches, Listed;
    ghost var g := GraphOf(Views(clientList));
    SearchSound(g, origId, newId, depth);
    GraphKeys(Views(clientList), newId);
    var client, k := GetClientById(clientList, newId);
    if client == null {
      return false;
    }
    GraphAt(Views(clientList), k);
    var i := 0;
    assert client.deps[0..] == client.deps;
    while i < |client.deps|
      invariant 0 <= i <= |client.deps|
      invariant SearchFrom(g, origId, newId, depth) == SearchList(g, origId, client.deps[i..], depth - 1)
    {
      var dep := client.deps[i];
      assert client.deps[i..][0] == dep && client.deps[i..][1..] == client.deps[i + 1..];
      if origId == dep {
        return true;
      }
      var circular := FindCircular(clientList, origId, dep, depth - 1);
      if circular {
        return true;
      }
      i := i + 1;
    }
    return false;
  }

  /** What an addition leaves in the dependency list. */
  ghost function AddedDeps(visible: Deps, id: Id, deps: seq<Id>, dep: Id): seq<Id> {
    if dep in deps || Reaches(visible, dep, id) then deps else [dep] + deps
  }

  /** client_dependency_add: duplicates and visible cycles are refused. Needs no more than that the
    search, if there is one, comes to an end. */
  method AddDependency(clientList: seq<LashClient>, client: LashClient, dep: Id)
    requires dep in client.deps || Ends(GraphOf(Views(clientList)), client.id, dep)
    modifies client`deps
    ensures client.deps == old(AddedDeps(GraphOf(Views(clientList)), client.id, client.deps, dep))
    ensures old(client.deps) != client.deps ==> client.deps[0] == dep && client.deps[1..] == old(client.deps)
  {
    var i := 0;
    while i < |client.deps|
      invariant 0 <= i <= |client.deps|
      invariant dep !in client.deps[..i]
    {
      if client.deps[i] == dep {
        return;
      }
      i := i + 1;
    }
    ghost var depth :| SearchFrom(GraphOf(Views(clientList)), client.id, dep, depth).Known?;
    var circular := FindCircular(clientList, client.id, dep, depth);
    if circular {
      return;
    }
    client.deps := [dep] + client.deps;
  }

  /** client_dependency_remove: the first match is unlinked, the search stops there. */
  method RemoveDependency(head: seq<Id>, id: Id) returns (rest: seq<Id>)
    ensures rest == RemoveFirst(head, id)
  {
    var i := 0;
    assert head[0..] == head;
    while i < |head|
      invariant 0 <= i <= |head|
      invariant RemoveFirst(head, id) == head[..i] + RemoveFirst(head[i..], id)
    {
      assert head[i..][1..] == head[i + 1..];
      if head[i] == id {
        return head[..i] + head[i + 1..];
      }
      assert head[..i] + [head[i]] == head[..i + 1];
      i := i + 1;
    }
    assert head[..i] + [] == head;
    return head;
  }

  lemma KeepListedFirst(cs: seq<Client>, a: seq<Id>)
    ensures KeepListed(cs, a)
            == if a == [] then [] else (if Listed(cs, a[0]) then [a[0]] else []) + KeepListed(cs, a[1..])
  {
    hide Listed;
  }

  lemma {:induction false} KeepListedAppend(cs: seq<Client>, a: seq<Id>, d: Id)
    ensures KeepListed(cs, a + [d]) == KeepListed(cs, a) + if Listed(cs, d) then [d] else []
  {
    hide Listed, KeepListed;
    if a == [] {
      assert [d][1..] == [] && [] + [d] == [d];
      KeepListedFirst(cs, [d]);
      KeepListedFirst(cs, []);
    } else {
      assert (a + [d])[1..] == a[1..] + [d];
      KeepListedFirst(cs, a + [d]);
      KeepListedFirst(cs, a);
      KeepListedAppend(cs, a[1..], d);
    }
  }

  lemma {:induction false} ListedById(cs: seq<Client>, ds: seq<Client>, x: Id)
    requires |cs| == |ds| && forall k :: 0 <= k < |cs| ==> cs[k].id == ds[k].id
    ensures Listed(cs, x) <==> Listed(ds, x)
  {
    if Listed(cs, x) {
      var k :| 0 <= k < |cs| && cs[k].id == x;
      assert ds[k].id == x;
    }
    if Listed(ds, x) {
      var k :| 0 <= k < |ds| && ds[k].id == x;
      assert cs[k].id == x;
    }
  }

  /** client_dependency_list_sanity_check: dependencies on clients that are not in the list
    are unlinked while the list is walked. */
  method SanityCheck(clientList: seq<LashClient>, client: LashClient)
    modifies client`deps
    ensures client.deps == old(KeepListed(Views(clientList), client.deps))
  {
    ghost var before, original := Views(clientList), client.deps;
    var i := 0;
    ghost var seen := 0;
    assert original[..0] == [] && original[0..] == original;
    while i < |client.deps|
      invariant 0 <= i <= |client.deps| && Checked(before, original, seen, client.deps, i)
      decreases |original| - seen
    {
      hide Checked, KeepListed;
      var dep := client.deps[i];
      var found, k := GetClientById(clientList, dep);
      ListedById(before, Views(clientList), dep);
      CheckedOneMore(before, original, seen, client.deps, i);
      if found == null {
        client.deps := client.deps[..i] + client.deps[i + 1..];
      } else {
        i := i + 1;
      }
      seen := seen + 1;
    }
    assert original[..seen] == original && client.deps[..i] == client.deps;
  }

  /** The walk has seen `seen` of the original dependencies; `i` of them are kept. */
  ghost predicate Checked(cs: seq<Client>, original: seq<Id>, seen: nat, deps: seq<Id>, i: nat) {
    && i <= |deps| && seen + (|deps| - i) == |original|
    && deps[i..] == original[seen..] && deps[..i] == KeepListed(cs, original[..seen])
  }

  lemma CheckedOneMore(cs: seq<Client>, original: seq<Id>, seen: nat, deps: seq<Id>, i: nat)
    requires Checked(cs, original, seen, deps, i) && i < |deps|
    ensures seen < |original|
    ensures Listed(cs, deps[i]) ==> Checked(cs, original, seen + 1, deps, i + 1)
    ensures !Listed(cs, deps[i]) ==> Checked(cs, original, seen + 1, deps[..i] + deps[i + 1..], i)
  {
    var dep, less := deps[i], deps[..i] + deps[i + 1..];
    assert dep == deps[i..][0] == original[seen..][0] == original[seen];
    assert original[..seen + 1] == original[..seen] + [dep];
    KeepListedAppend(cs, original[..seen], dep);
    hide KeepListed, Listed;
    assert deps[i + 1..] == deps[i..][1..] == original[seen..][1..] == original[seen + 1..];
    assert less[i..] == deps[i + 1..] && less[..i] == deps[..i];
    assert deps[..i + 1] == deps[..i] + [dep];
  }

  /** client_dependency_init_unsatisfied: a fresh copy, built by prepending. */
  method InitUnsatisfied(client: LashClient)
    modifies client`unsat
    ensures client.unsat == Reverse(client.deps)
  {
    client.unsat := [];
    var i := 0;
    assert client.deps[0..] == client.deps;
    while i < |client.deps|
      invariant 0 <= i <= |client.deps|
      invariant Reverse(client.deps) == Reverse(client.deps[i..]) + client.unsat
    {
      assert client.deps[i..][1..] == client.deps[i + 1..];
      client.unsat := [client.deps[i]] + client.unsat;
      i := i + 1;
    }
  }

  // ------------------------------------------------------------------ acyclicity

  ghost predicate SubgraphOf(g: Deps, h: Deps) {
    forall x, y :: Edge(g, x, y) ==> Edge(h, x, y)
  }

  /** What one addition does to the whole dependency graph `g` of a project, when the search
    sees only the part `visible` of it: the graph stays acyclic exactly when the request is
    no self-dependency and no cycle hides outside the visible part. */
  lemma AddKeepsAcyclicExactlyWhen(g: Deps, visible: Deps, id: Id, dep: Id)
    requires Acyclic(g) && id in g && SubgraphOf(visible, g)
    ensures Acyclic(g[id := AddedDeps(visible, id, g[id], dep)]) <==>
              id != dep && (dep !in g[id] ==> (Reaches(g, dep, id) ==> Reaches(visible, dep, id)))
  {
    if id == dep && dep in g[id] {
      EdgeReaches(g, id, id);
      assert false;
    }
    if dep in g[id] || Reaches(visible, dep, id) {
      assert g[id := g[id]] == g;
      if Reaches(visible, dep, id) {
        ReachesMonotone(visible, g, dep, id);
      }
    } else {
      var h := g[id := [dep] + g[id]];
      assert forall x, y :: Edge(h, x, y) <==> Edge(g, x, y) || (x == id && y == dep);
      AddEdgeCycle(g, h, id, dep);
    }
  }

  /** When the search sees every edge that leaves another client, only a self-dependency can
    close a cycle. This covers a running project whose clients are all in the searched list,
    and XML loading, where the client being parsed is not in the list yet. */
  lemma AddWithAllSourcesVisible(g: Deps, visible: Deps, id: Id, dep: Id)
    requires Acyclic(g) && id in g && SubgraphOf(visible, g)
    requires forall x, y :: Edge(g, x, y) && x != id ==> Edge(visible, x, y)
    ensures Acyclic(g[id := AddedDeps(visible, id, g[id], dep)]) <==> id != dep
  {
    AddKeepsAcyclicExactlyWhen(g, visible, id, dep);
    if id != dep && Reaches(g, dep, id) {
      var p :| IsPath(g, p) && p[0] == dep && p[|p| - 1] == id;
      ReachesWithoutTargetEdges(g, visible, p, id);
    }
  }

  /** A cycle through a lost client is not seen when only the running clients are searched. */
  lemma HiddenCycle()
    ensures var g: Deps, visible: Deps := map[1 := [], 2 := [1]], map[1 := []];
            Acyclic(g) && SubgraphOf(visible, g) && !Acyclic(g[1 := AddedDeps(visible, 1, g[1], 2)])
  {
    var g: Deps, visible: Deps := map[1 := [], 2 := [1]], map[1 := []];
    forall x, y
      ensures Reaches(g, x, y) ==> x == 2 && y == 1
    {
      ReachesFirstEdge(g, x, y);
      ReachesFirstEdge(g, 1, y);
    }
    ReachesFirstEdge(visible, 2, 1);
    assert Edge(g, 2, 1);
    EdgeReaches(g, 2, 1);
    AddKeepsAcyclicExactlyWhen(g, visible, 1, 2);
  }
}
