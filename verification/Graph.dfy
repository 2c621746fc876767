/** Directed dependency graphs over client ids, and reachability by one or more edges.

  A graph maps the id of every listed client to the ids it depends on. Ids that occur only
  as targets belong to no listed client and have no outgoing edges. */
module Graph {
  /** A client UUID; the daemon only ever compares UUIDs for equality. */
  type Id = nat

  type Deps = map<Id, seq<Id>>

  predicate Edge(g: Deps, a: Id, b: Id) {
    a in g && b in g[a]
  }

  predicate IsPath(g: Deps, p: seq<Id>) {
    && |p| >= 2
    && forall i :: 0 <= i < |p| - 1 ==> Edge(g, p[i], p[i + 1])
  }

  /** A path of one or more dependency edges leads from `a` to `b`. */
  ghost predicate Reaches(g: Deps, a: Id, b: Id) {
    exists p :: IsPath(g, p) && p[0] == a && p[|p| - 1] == b
  }

  ghost predicate Acyclic(g: Deps) {
    forall x :: !Reaches(g, x, x)
  }

  function Nodes(g: Deps): set<Id> {
    g.Keys + set a, b | a in g && b in g[a] :: b
  }

  /** Everything reachable from `a`: the measure of every search along dependency edges. */
  ghost function ReachSet(g: Deps, a: Id): set<Id> {
    set b | b in Nodes(g) && Reaches(g, a, b)
  }

  lemma TailIsPath(g: Deps, p: seq<Id>)
    requires IsPath(g, p) && |p| > 2
    ensures IsPath(g, p[1..]) && p[1..][|p| - 2] == p[|p| - 1]
  {
    forall i | 0 <= i < |p[1..]| - 1
      ensures Edge(g, p[1..][i], p[1..][i + 1])
    {
      assert p[1..][i] == p[i + 1] && p[1..][i + 1] == p[i + 1 + 1];
    }
  }

  lemma EdgeReaches(g: Deps, a: Id, b: Id)
    requires Edge(g, a, b)
    ensures Reaches(g, a, b)
  {
    var p := [a, b];
    assert IsPath(g, p) && p[0] == a && p[|p| - 1] == b;
  }

  lemma ReachesTransitive(g: Deps, a: Id, b: Id, c: Id)
    requires Reaches(g, a, b) && Reaches(g, b, c)
    ensures Reaches(g, a, c)
  {
    var p :| IsPath(g, p) && p[0] == a && p[|p| - 1] == b;
    var q :| IsPath(g, q) && q[0] == b && q[|q| - 1] == c;
    var r := p + q[1..];
    forall i | 0 <= i < |r| - 1
      ensures Edge(g, r[i], r[i + 1])
    {
      if i >= |p| - 1 {
        assert r[i] == q[i - (|p| - 1)] && r[i + 1] == q[i - (|p| - 1) + 1];
      }
    }
    assert IsPath(g, r) && r[0] == a && r[|r| - 1] == c;
  }

  /** Reachability unfolds into a first edge, which is how the recursive search explores it. */
  lemma ReachesFirstEdge(g: Deps, a: Id, b: Id)
    ensures Reaches(g, a, b) <==> exists d :: Edge(g, a, d) && (d == b || Reaches(g, d, b))
  {
    if Reaches(g, a, b) {
      var p :| IsPath(g, p) && p[0] == a && p[|p| - 1] == b;
      assert Edge(g, a, p[1]);
      if |p| > 2 {
        var q := p[1..];
        TailIsPath(g, p);
        assert IsPath(g, q) && q[0] == p[1] && q[|q| - 1] == b;
      }
    }
    if exists d :: Edge(g, a, d) && (d == b || Reaches(g, d, b)) {
      var d :| Edge(g, a, d) && (d == b || Reaches(g, d, b));
      EdgeReaches(g, a, d);
      if d != b { ReachesTransitive(g, a, d, b); }
    }
  }

  /** Following an edge of an acyclic graph strictly shrinks the set of reachable ids. */
  lemma ReachSetShrinks(g: Deps, a: Id, b: Id)
    requires Acyclic(g) && Edge(g, a, b)
    ensures ReachSet(g, b) < ReachSet(g, a)
  {
    EdgeReaches(g, a, b);
    forall x | x in ReachSet(g, b)
      ensures x in ReachSet(g, a)
    {
      ReachesTransitive(g, a, b, x);
    }
    assert b in ReachSet(g, a) && b !in ReachSet(g, b);
  }

  /** A graph with fewer edges reaches no more. */
  lemma ReachesMonotone(g: Deps, h: Deps, a: Id, b: Id)
    requires forall x, y :: Edge(g, x, y) ==> Edge(h, x, y)
    requires Reaches(g, a, b)
    ensures Reaches(h, a, b)
  {
    var p :| IsPath(g, p) && p[0] == a && p[|p| - 1] == b;
    assert IsPath(h, p);
  }

  /** The edges leaving `b` are irrelevant to whether `b` can be reached from elsewhere. */
  lemma {:induction false} ReachesWithoutTargetEdges(g: Deps, h: Deps, p: seq<Id>, b: Id)
    requires IsPath(g, p) && p[|p| - 1] == b && p[0] != b
    requires forall x, y :: Edge(g, x, y) && x != b ==> Edge(h, x, y)
    ensures Reaches(h, p[0], b)
    decreases |p|
  {
    assert Edge(g, p[0], p[1]);
    EdgeReaches(h, p[0], p[1]);
    if p[1] != b {
      var q := p[1..];
      TailIsPath(g, p);
      ReachesWithoutTargetEdges(g, h, q, b);
      ReachesTransitive(h, p[0], p[1], b);
    }
  }

  /** Adding the edge `c -> d` to an acyclic graph closes a cycle exactly when `d` is `c`
    itself or `d` already reaches `c`. */
  lemma AddEdgeCycle(g: Deps, h: Deps, c: Id, d: Id)
    requires Acyclic(g)
    requires forall x, y :: Edge(h, x, y) <==> Edge(g, x, y) || (x == c && y == d)
    ensures Acyclic(h) <==> d != c && !Reaches(g, d, c)
  {
    assert Edge(h, c, d);
    EdgeReaches(h, c, d);
    if d == c {
      assert Reaches(h, c, c);
    } else if Reaches(g, d, c) {
      ReachesMonotone(g, h, d, c);
      ReachesTransitive(h, c, d, c);
    } else {
      forall x
        ensures !Reaches(h, x, x)
      {
        if Reaches(h, x, x) {
          var p :| IsPath(h, p) && p[0] == x && p[|p| - 1] == x;
          PathSplitsAtEdge(g, h, c, d, p);
          if Reaches(g, x, x) {
          } else if x != c && d != x {
            ReachesTransitive(g, d, x, c);
          }
          assert false;
        }
      }
    }
  }

  /** A path in the enlarged graph either avoids the new edge, or reaches its source and
    is reached from its target within the old graph. */
  lemma {:induction false} PathSplitsAtEdge(g: Deps, h: Deps, c: Id, d: Id, p: seq<Id>)
    requires forall x, y :: Edge(h, x, y) <==> Edge(g, x, y) || (x == c && y == d)
    requires IsPath(h, p)
    ensures || Reaches(g, p[0], p[|p| - 1])
            || ((p[0] == c || Reaches(g, p[0], c)) && (p[|p| - 1] == d || Reaches(g, d, p[|p| - 1])))
    decreases |p|
  {
    var a, b := p[0], p[|p| - 1];
    assert Edge(h, a, p[1]);
    if Edge(g, a, p[1]) { EdgeReaches(g, a, p[1]); }
    if |p| > 2 {
      var q := p[1..];
      TailIsPath(h, p);
      PathSplitsAtEdge(g, h, c, d, q);
      if Edge(g, a, p[1]) {
        if Reaches(g, p[1], b) {
          ReachesTransitive(g, a, p[1], b);
        } else if p[1] != c {
          ReachesTransitive(g, a, p[1], c);
        }
      }
    }
  }
}
