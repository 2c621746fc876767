/** The singly linked list, and its in-place merge sort. */
module ListSort {
  import opened Sequences

  /** void *: what a node carries; only the compare function looks behind it. */
  type Data = nat

  type Compare = (Data, Data) -> int

  class Node {
    const data: Data
    var next: Node?

    constructor (data: Data)
      ensures this.data == data && next == null
    {
      this.data := data;
      next := null;
    }
  }


  // ------------------------------------------------------------------ what sorting does to the nodes

  /** cmp(a, b) < 0 says that a comes strictly before b. */
  ghost predicate TotalPreorder(cmp: Compare) {
    && (forall a, b :: !(cmp(a, b) < 0 && cmp(b, a) < 0))
    && forall a, b, c :: cmp(b, a) >= 0 && cmp(c, b) >= 0 ==> cmp(c, a) >= 0
  }

  ghost predicate Ordered(cmp: Compare, s: seq<Node>) {
    forall i, j :: 0 <= i < j < |s| ==> cmp(s[j].data, s[i].data) >= 0
  }

  function Merged(cmp: Compare, a: seq<Node>, b: seq<Node>): seq<Node> {
    if a == [] then b
    else if b == [] then a
    else if cmp(a[0].data, b[0].data) < 0 then [a[0]] + Merged(cmp, a[1..], b)
    else [b[0]] + Merged(cmp, a, b[1..])
  }

  function Sorted(cmp: Compare, s: seq<Node>): seq<Node> {
    if |s| < 2 then s
    else Merged(cmp, Sorted(cmp, s[..|s| / 2]), Sorted(cmp, s[|s| / 2..]))
  }

  lemma {:induction false} MergedPermutes(cmp: Compare, a: seq<Node>, b: seq<Node>)
    ensures multiset(Merged(cmp, a, b)) == multiset(a) + multiset(b)
  {
    if a != [] && b != [] {
      assert a == [a[0]] + a[1..] && b == [b[0]] + b[1..];
      if cmp(a[0].data, b[0].data) < 0 { MergedPermutes(cmp, a[1..], b); } else { MergedPermutes(cmp, a, b[1..]); }
    }
  }

  /** Sorting keeps the nodes: none is lost, none comes twice. */
  lemma {:induction false} SortedPermutes(cmp: Compare, s: seq<Node>)
    ensures multiset(Sorted(cmp, s)) == multiset(s)
  {
    if |s| >= 2 {
      var a, b := s[..|s| / 2], s[|s| / 2..];
      SortedPermutes(cmp, a);
      SortedPermutes(cmp, b);
      MergedPermutes(cmp, Sorted(cmp, a), Sorted(cmp, b));
      assert s == a + b;
    }
  }

  /** Nothing in `s` comes strictly before `x`. */
  ghost predicate Above(cmp: Compare, s: seq<Node>, x: Data) {
    forall i :: 0 <= i < |s| ==> cmp(s[i].data, x) >= 0
  }

  lemma {:induction false} MergedAbove(cmp: Compare, a: seq<Node>, b: seq<Node>, x: Data)
    requires Above(cmp, a, x) && Above(cmp, b, x)
    ensures Above(cmp, Merged(cmp, a, b), x)
  {
    if a != [] && b != [] {
      if cmp(a[0].data, b[0].data) < 0 { MergedAbove(cmp, a[1..], b, x); } else { MergedAbove(cmp, a, b[1..], x); }
    }
  }

  /** What is not below the head of an ordered list. */
  lemma AboveHead(cmp: Compare, s: seq<Node>, x: Data)
    requires TotalPreorder(cmp) && Ordered(cmp, s) && s != [] && cmp(s[0].data, x) >= 0
    ensures Above(cmp, s, x) && Above(cmp, s[1..], s[0].data) && Ordered(cmp, s[1..])
  {
  }

  lemma {:induction false} MergedOrdered(cmp: Compare, a: seq<Node>, b: seq<Node>)
    requires TotalPreorder(cmp) && Ordered(cmp, a) && Ordered(cmp, b)
    ensures Ordered(cmp, Merged(cmp, a, b))
  {
    if a != [] && b != [] {
      var x, y := a[0].data, b[0].data;
      if cmp(x, y) < 0 {
        AboveHead(cmp, a, x);
        AboveHead(cmp, b, x);
        MergedAbove(cmp, a[1..], b, x);
        MergedOrdered(cmp, a[1..], b);
      } else {
        AboveHead(cmp, b, y);
        AboveHead(cmp, a, y);
        MergedAbove(cmp, a, b[1..], y);
        MergedOrdered(cmp, a, b[1..]);
      }
    }
  }

  lemma {:induction false} SortedOrdered(cmp: Compare, s: seq<Node>)
    requires TotalPreorder(cmp)
    ensures Ordered(cmp, Sorted(cmp, s))
  {
    if |s| >= 2 {
      var a, b := s[..|s| / 2], s[|s| / 2..];
      SortedOrdered(cmp, a);
      SortedOrdered(cmp, b);
      MergedOrdered(cmp, Sorted(cmp, a), Sorted(cmp, b));
    }
  }

  // ------------------------------------------------------------------ ties

  predicate Tie(cmp: Compare, x: Data, y: Data) {
    cmp(x, y) >= 0 && cmp(y, x) >= 0
  }

  /** The nodes that tie with `x`, in order. */
  function Ties(cmp: Compare, s: seq<Node>, x: Data): seq<Node> {
    if s == [] then [] else (if Tie(cmp, s[0].data, x) then [s[0]] else []) + Ties(cmp, s[1..], x)
  }

  lemma {:induction false} ReverseAppend(a: seq<Node>, b: seq<Node>)
    ensures Reverse(a + b) == Reverse(b) + Reverse(a)
  {
    if a == [] {
      assert a + b == b;
    } else {
      ReverseAppend(a[1..], b);
      assert (a + b)[1..] == a[1..] + b;
      assert Reverse(b) + (Reverse(a[1..]) + [a[0]]) == Reverse(b) + Reverse(a[1..]) + [a[0]];
    }
  }

  lemma {:induction false} TiesAppend(cmp: Compare, a: seq<Node>, b: seq<Node>, x: Data)
    ensures Ties(cmp, a + b, x) == Ties(cmp, a, x) + Ties(cmp, b, x)
  {
    if a == [] {
      assert a + b == b;
    } else {
      assert (a + b)[1..] == a[1..] + b && (a + b)[0] == a[0];
      TiesAppend(cmp, a[1..], b, x);
      hide Tie;
    }
  }

  lemma {:induction false} NoTies(cmp: Compare, s: seq<Node>, x: Data)
    requires forall i :: 0 <= i < |s| ==> !Tie(cmp, s[i].data, x)
    ensures Ties(cmp, s, x) == []
  {
    if s != [] { NoTies(cmp, s[1..], x); }
  }

  function One(cmp: Compare, n: Node, x: Data): seq<Node> {
    if Tie(cmp, n.data, x) then [n] else []
  }

  lemma TiesFirst(cmp: Compare, n: Node, s: seq<Node>, x: Data)
    ensures Ties(cmp, [n] + s, x) == One(cmp, n, x) + Ties(cmp, s, x)
  {
    assert ([n] + s)[1..] == s;
  }

  /** Nodes strictly behind one that ties with `x` do not tie with `x`. */
  lemma NoTiesBehind(cmp: Compare, n: Node, b: seq<Node>, x: Data)
    requires TotalPreorder(cmp) && Ordered(cmp, b) && b != [] && cmp(n.data, b[0].data) < 0
    ensures One(cmp, n, x) == [] || Ties(cmp, b, x) == []
  {
    if Tie(cmp, n.data, x) {
      AboveHead(cmp, b, b[0].data);
      NoTies(cmp, b, x);
    }
  }

  lemma Regroup(a: seq<Node>, b: seq<Node>, c: seq<Node>)
    ensures a + (b + c) == (a + b) + c
    ensures a == [] || b == [] ==> a + b == b + a
  {
  }

  /** A merge puts the second list's nodes first among ties. */
  lemma {:induction false} MergedTies(cmp: Compare, a: seq<Node>, b: seq<Node>, x: Data)
    requires TotalPreorder(cmp) && Ordered(cmp, a) && Ordered(cmp, b)
    ensures Ties(cmp, Merged(cmp, a, b), x) == Ties(cmp, b, x) + Ties(cmp, a, x)
  {
    if a == [] || b == [] {
      assert Ties(cmp, [], x) == [];
    } else if cmp(a[0].data, b[0].data) < 0 {
      hide Ties, One, Tie;
      MergedTies(cmp, a[1..], b, x);
      TiesFirst(cmp, a[0], Merged(cmp, a[1..], b), x);
      TiesFirst(cmp, a[0], a[1..], x);
      assert a == [a[0]] + a[1..];
      NoTiesBehind(cmp, a[0], b, x);
      Regroup(One(cmp, a[0], x), Ties(cmp, b, x), Ties(cmp, a[1..], x));
      Regroup(Ties(cmp, b, x), One(cmp, a[0], x), Ties(cmp, a[1..], x));
    } else {
      hide Ties, One, Tie;
      MergedTies(cmp, a, b[1..], x);
      TiesFirst(cmp, b[0], Merged(cmp, a, b[1..]), x);
      TiesFirst(cmp, b[0], b[1..], x);
      assert b == [b[0]] + b[1..];
      Regroup(One(cmp, b[0], x), Ties(cmp, b[1..], x), Ties(cmp, a, x));
    }
  }

  lemma ReverseTies(cmp: Compare, s: seq<Node>, x: Data)
    requires |s| < 2
    ensures Reverse(Ties(cmp, s, x)) == Ties(cmp, s, x)
  {
    if |s| == 1 {
      assert s[1..] == [] && Ties(cmp, s, x) == One(cmp, s[0], x);
      assert [s[0]][1..] == [];
    }
  }

  lemma TiesOfHalves(cmp: Compare, a: seq<Node>, b: seq<Node>, x: Data)
    requires TotalPreorder(cmp)
    requires Ties(cmp, Sorted(cmp, a), x) == Reverse(Ties(cmp, a, x))
    requires Ties(cmp, Sorted(cmp, b), x) == Reverse(Ties(cmp, b, x))
    ensures Ties(cmp, Merged(cmp, Sorted(cmp, a), Sorted(cmp, b)), x) == Reverse(Ties(cmp, a + b, x))
  {
    hide *;
    SortedOrdered(cmp, a);
    SortedOrdered(cmp, b);
    MergedTies(cmp, Sorted(cmp, a), Sorted(cmp, b), x);
    TiesAppend(cmp, a, b, x);
    ReverseAppend(Ties(cmp, a, x), Ties(cmp, b, x));
  }

  /** The sort is the opposite of stable: nodes that tie come out in reverse order. */
  lemma {:induction false} SortedTies(cmp: Compare, s: seq<Node>, x: Data)
    requires TotalPreorder(cmp)
    ensures Ties(cmp, Sorted(cmp, s), x) == Reverse(Ties(cmp, s, x))
  {
    if |s| >= 2 {
      var a, b := s[..|s| / 2], s[|s| / 2..];
      assert s == a + b;
      SortedTies(cmp, a, x);
      SortedTies(cmp, b, x);
      TiesOfHalves(cmp, a, b, x);
    } else {
      ReverseTies(cmp, s, x);
    }
  }

  lemma HeadsTie(cmp: Compare, a: seq<Node>, b: seq<Node>)
    requires TotalPreorder(cmp) && Ordered(cmp, a) && Ordered(cmp, b) && a != [] && b != []
    requires multiset(a) == multiset(b)
    ensures Tie(cmp, a[0].data, b[0].data) && Tie(cmp, a[0].data, a[0].data)
  {
    assert a[0] in multiset(b) && b[0] in multiset(a);
    var i :| 0 <= i < |b| && b[i] == a[0];
    var j :| 0 <= j < |a| && a[j] == b[0];
  }

  /** Two ordered lists of the same nodes that agree on the order of ties are the same list. */
  lemma {:induction false} OrderIsDetermined(cmp: Compare, a: seq<Node>, b: seq<Node>)
    requires TotalPreorder(cmp) && Ordered(cmp, a) && Ordered(cmp, b) && multiset(a) == multiset(b)
    requires forall x :: Ties(cmp, a, x) == Ties(cmp, b, x)
    ensures a == b
  {
    assert |a| == |multiset(a)| == |multiset(b)| == |b|;
    if a != [] {
      HeadsTie(cmp, a, b);
      assert Ties(cmp, a, a[0].data)[0] == a[0] && Ties(cmp, b, a[0].data)[0] == b[0];
      assert a == [a[0]] + a[1..] && b == [b[0]] + b[1..];
      forall x
        ensures Ties(cmp, a[1..], x) == Ties(cmp, b[1..], x)
      {
        SameTail(One(cmp, a[0], x), Ties(cmp, a[1..], x), Ties(cmp, b[1..], x));
        TiesFirst(cmp, a[0], a[1..], x);
        TiesFirst(cmp, b[0], b[1..], x);
      }
      SameRest(a, b);
      OrderIsDetermined(cmp, a[1..], b[1..]);
    }
  }

  lemma SameRest(a: seq<Node>, b: seq<Node>)
    requires a != [] && b != [] && a[0] == b[0] && multiset(a) == multiset(b)
    ensures multiset(a[1..]) == multiset(b[1..])
  {
    assert a == [a[0]] + a[1..] && b == [b[0]] + b[1..];
    assert multiset(a) - multiset{a[0]} == multiset(a[1..]);
    assert multiset(b) - multiset{b[0]} == multiset(b[1..]);
  }

  lemma SameTail(one: seq<Node>, a: seq<Node>, b: seq<Node>)
    ensures one + a == one + b ==> a == b
  {
    assert (one + a)[|one|..] == a && (one + b)[|one|..] == b;
  }

  /** `r` is an ordered list of the nodes of `s`, ties reversed. */
  ghost predicate Reordered(cmp: Compare, s: seq<Node>, r: seq<Node>) {
    Ordered(cmp, r) && multiset(r) == multiset(s) && forall x: Data :: Ties(cmp, r, x) == Reverse(Ties(cmp, s, x))
  }

  lemma SortedReorders(cmp: Compare, s: seq<Node>)
    requires TotalPreorder(cmp)
    ensures Reordered(cmp, s, Sorted(cmp, s))
  {
    SortedOrdered(cmp, s);
    SortedPermutes(cmp, s);
    hide Ties, Sorted, Reverse, Ordered, TotalPreorder;
    forall x: Data
      ensures Ties(cmp, Sorted(cmp, s), x) == Reverse(Ties(cmp, s, x))
    {
      SortedTies(cmp, s, x);
    }
  }

  /** Order, nodes and the reversal of ties determine the result of the sort. */
  lemma SortIsDetermined(cmp: Compare, s: seq<Node>, r: seq<Node>)
    requires TotalPreorder(cmp)
    ensures r == Sorted(cmp, s) <==> Reordered(cmp, s, r)
  {
    SortedReorders(cmp, s);
    hide Ties, Sorted, Reverse, Ordered, TotalPreorder;
    if Reordered(cmp, s, r) {
      OrderIsDetermined(cmp, r, Sorted(cmp, s));
    }
  }

  // ------------------------------------------------------------------ the lists in memory

  predicate Disjoint(a: seq<Node>, b: seq<Node>) {
    forall i, j :: 0 <= i < |a| && 0 <= j < |b| ==> a[i] != b[j]
  }

  /** The node at position `i`, null behind the last one. */
  function At(s: seq<Node>, i: nat): Node? {
    if i < |s| then s[i] else null
  }

  /** `head` points at a well formed list of the nodes `s`. */
  ghost predicate Chain(head: Node?, s: seq<Node>)
    reads s
  {
    && NoDup(s) && head == At(s, 0)
    && forall i :: 0 <= i < |s| ==> s[i].next == At(s, i + 1)
  }

  /** The nodes `w` follow each other; where the last one leads does not matter. */
  ghost predicate Strand(w: seq<Node>)
    reads w
  {
    && w != [] && NoDup(w)
    && forall i :: 0 <= i < |w| - 1 ==> w[i].next == w[i + 1]
  }

  lemma ChainTail(p: Node, s: seq<Node>)
    requires Chain(p, s)
    ensures s != [] && p == s[0] && Chain(p.next, s[1..])
  {
    assert s[0].next == At(s, 1) == At(s[1..], 0);
    assert NoDup(s[1..]);
    forall i | 0 <= i < |s[1..]|
      ensures s[1..][i].next == At(s[1..], i + 1)
    {
      assert s[i + 1].next == At(s, i + 2);
    }
  }

  /** l = l->next = p, for a list `p` and another list `q`. */
  method Take(l: Node, p: Node, q: Node?, ghost w: seq<Node>, ghost s: seq<Node>, ghost t: seq<Node>)
    requires Strand(w) && l == w[|w| - 1] && Chain(p, s) && Chain(q, t)
    requires Disjoint(w, s) && Disjoint(w, t)
    modifies l`next
    ensures Strand(w + [p]) && Chain(p.next, s[1..]) && Chain(q, t)
  {
    ChainTail(p, s);
    l.next := p;
  }

  /** The nodes handed over so far and the two rests are the nodes of the two lists, each once. */
  ghost predicate Sharing(w: seq<Node>, s: seq<Node>, t: seq<Node>, a: seq<Node>, b: seq<Node>) {
    && Disjoint(w, s) && Disjoint(w, t) && Disjoint(s, t) && NoDup(s) && NoDup(t)
    && (forall i :: 1 <= i < |w| ==> w[i] in a || w[i] in b)
    && (forall i :: 0 <= i < |s| ==> s[i] in a) && (forall i :: 0 <= i < |t| ==> t[i] in b)
  }

  lemma SharingFirst(w: seq<Node>, s: seq<Node>, t: seq<Node>, a: seq<Node>, b: seq<Node>)
    requires Sharing(w, s, t, a, b) && s != []
    ensures Sharing(w + [s[0]], s[1..], t, a, b)
  {
  }

  lemma SharingSecond(w: seq<Node>, s: seq<Node>, t: seq<Node>, a: seq<Node>, b: seq<Node>)
    requires Sharing(w, s, t, a, b) && t != []
    ensures Sharing(w + [t[0]], s, t[1..], a, b)
  {
  }

  /** The node to be relinked is the first one or one of the lists' nodes. */
  lemma SharingLast(w: seq<Node>, s: seq<Node>, t: seq<Node>, a: seq<Node>, b: seq<Node>)
    requires Sharing(w, s, t, a, b)
    ensures Disjoint(w, s) && Disjoint(w, t)
    ensures |w| > 1 ==> w[|w| - 1] in a || w[|w| - 1] in b
  {
  }

  /** l->next = the rest of the other list. */
  method Close(l: Node, rest: Node?, ghost w: seq<Node>, ghost s: seq<Node>)
    requires Strand(w) && l == w[|w| - 1] && Chain(rest, s) && Disjoint(w, s)
    modifies l`next
    ensures Chain(w[0].next, (w + s)[1..])
  {
    l.next := rest;
    ghost var all := (w + s)[1..];
    assert At(all, 0) == if |w| > 1 then w[1] else At(s, 0);
    assert NoDup(w + s) && NoDup(all);
    forall i | 0 <= i < |all|
      ensures all[i].next == At(all, i + 1)
    {
      if i + 2 < |w| {
        assert all[i] == w[i + 1] && all[i + 1] == w[i + 2];
      } else if i + 2 == |w| {
        assert all[i] == l && At(all, i + 1) == At(s, 0);
      } else {
        assert all[i] == s[i + 1 - |w|] && At(all, i + 1) == At(s, i + 2 - |w|);
      }
    }
  }

  lemma MergedStep(cmp: Compare, w: seq<Node>, s: seq<Node>, t: seq<Node>)
    requires s != [] && t != []
    ensures w + Merged(cmp, s, t) == if cmp(s[0].data, t[0].data) < 0
                                     then w + [s[0]] + Merged(cmp, s[1..], t)
                                     else w + [t[0]] + Merged(cmp, s, t[1..])
  {
    if cmp(s[0].data, t[0].data) < 0 {
      assert w + ([s[0]] + Merged(cmp, s[1..], t)) == w + [s[0]] + Merged(cmp, s[1..], t);
    } else {
      assert w + ([t[0]] + Merged(cmp, s, t[1..])) == w + [t[0]] + Merged(cmp, s, t[1..]);
    }
  }

  /** The merge under way: `w` is linked up behind the local first node, `s` and `t` are left. */
  ghost predicate Merging(cmp: Compare, w: seq<Node>, s: seq<Node>, t: seq<Node>, a: seq<Node>, b: seq<Node>)
    reads w
  {
    && Strand(w) && Sharing(w, s, t, a, b)
    && w + Merged(cmp, s, t) == [w[0]] + Merged(cmp, a, b)
  }

  /** The body of the loop: the smaller head is taken, the second list's in case of a tie. */
  method MergeOne(l: Node, p1: Node, p2: Node, cmp: Compare, ghost w: seq<Node>, ghost s: seq<Node>, ghost t: seq<Node>,
                  ghost a: seq<Node>, ghost b: seq<Node>)
    returns (last: Node, q1: Node?, q2: Node?, ghost s': seq<Node>, ghost t': seq<Node>)
    requires Chain(p1, s) && Chain(p2, t) && Merging(cmp, w, s, t, a, b) && l == w[|w| - 1]
    modifies l`next
    ensures Chain(q1, s') && Chain(q2, t') && Merging(cmp, w + [last], s', t', a, b)
    ensures |s'| + |t'| < |s| + |t|
  {
    ChainTail(p1, s);
    ChainTail(p2, t);
    MergedStep(cmp, w, s, t);
    SharingLast(w, s, t, a, b);
    hide Chain, Strand, Merged, Sharing, Disjoint;
    if cmp(p1.data, p2.data) < 0 {
      SharingFirst(w, s, t, a, b);
      Take(l, p1, p2, w, s, t);
      last, q1, q2 := p1, p1.next, p2;
      s', t' := s[1..], t;
    } else {
      SharingSecond(w, s, t, a, b);
      Take(l, p2, p1, w, t, s);
      last, q1, q2 := p2, p1, p2.next;
      s', t' := s, t[1..];
    }
  }

  /** lash_list_sort_merge: relinks the nodes behind a local first node. */
  method SortMerge(l1: Node?, l2: Node?, cmp: Compare, ghost a: seq<Node>, ghost b: seq<Node>) returns (r: Node?)
    requires Chain(l1, a) && Chain(l2, b) && Disjoint(a, b)
    modifies a, b
    ensures Chain(r, Merged(cmp, a, b))
  {
    var list := new Node(0);
    var l: Node, p1, p2 := list, l1, l2;
    ghost var w: seq<Node>, s, t := [list], a, b;
    assert Merging(cmp, w, s, t, a, b);
    while p1 != null && p2 != null
      invariant Chain(p1, s) && Chain(p2, t) && Merging(cmp, w, s, t, a, b) && w[0] == list && l == w[|w| - 1]
      decreases |s| + |t|
    {
      SharingLast(w, s, t, a, b);
      hide Chain, Merging;
      l, p1, p2, s, t := MergeOne(l, p1, p2, cmp, w, s, t, a, b);
      w := w + [l];
    }
    SharingLast(w, s, t, a, b);
    assert (w + Merged(cmp, s, t))[1..] == Merged(cmp, a, b);
    hide Sharing;
    if p1 != null {
      Close(l, p1, w, s);
    } else {
      Close(l, p2, w, t);
    }
    r := list.next;
  }

  /** The split: `l1` stops before the second half. */
  method Half(list: Node, ghost s: seq<Node>) returns (l1: Node)
    requires Chain(list, s) && |s| >= 2
    ensures l1 == s[|s| / 2 - 1]
  {
    l1 := list;
    ghost var i := 0;
    var l2: Node? := list.next;
    assert l2 == s[1];
    l2 := l2.next;
    while l2 != null
      invariant 2 * i + 1 < |s| && l1 == s[i] && l2 == At(s, 2 * i + 2)
      decreases |s| - i
    {
      l2 := l2.next;
      if l2 == null {
        break;
      }
      l1 := l1.next;
      l2 := l2.next;
      i := i + 1;
    }
  }

  lemma ChainSplit(list: Node, s: seq<Node>, h: nat)
    requires Chain(list, s) && 0 < h < |s|
    ensures Chain(s[h - 1].next, s[h..]) && Disjoint(s[..h], s[h..]) && s[..h] + s[h..] == s
  {
    assert s[h - 1].next == At(s, h) == At(s[h..], 0);
    forall i | 0 <= i < |s[h..]|
      ensures s[h..][i].next == At(s[h..], i + 1)
    {
      assert s[h + i].next == At(s, h + i + 1);
    }
  }

  /** The list is cut in two: the first half ends in null, the second half is returned. */
  method Cut(list: Node, ghost s: seq<Node>) returns (l2: Node?)
    requires Chain(list, s) && |s| >= 2
    modifies s
    ensures var h := |s| / 2;
            Chain(list, s[..h]) && Chain(l2, s[h..]) && Disjoint(s[..h], s[h..]) && 0 < h < |s|
  {
    var l1 := Half(list, s);
    ChainSplit(list, s, |s| / 2);
    l2 := l1.next;
    l1.next := null;
  }

  predicate Inside(a: seq<Node>, s: seq<Node>) {
    forall i :: 0 <= i < |a| ==> a[i] in s
  }

  lemma SortedInside(cmp: Compare, s: seq<Node>)
    ensures Inside(Sorted(cmp, s), s)
  {
    hide Sorted;
    SortedPermutes(cmp, s);
    var r := Sorted(cmp, s);
    forall i | 0 <= i < |r| ensures r[i] in s { assert r[i] in multiset(r); }
  }

  lemma InsideDisjoint(ra: seq<Node>, a: seq<Node>, b: seq<Node>)
    requires Inside(ra, a) && Disjoint(a, b)
    ensures Disjoint(ra, b) && Disjoint(b, ra)
  {
    forall i, j | 0 <= i < |ra| && 0 <= j < |b|
      ensures ra[i] != b[j]
    {
      var k :| 0 <= k < |a| && a[k] == ra[i];
    }
  }

  lemma SplitInside(s: seq<Node>, h: nat)
    requires h <= |s|
    ensures Inside(s[..h], s) && Inside(s[h..], s)
  {
  }

  lemma ChainLength(list: Node?, s: seq<Node>)
    requires Chain(list, s)
    ensures list == null <==> s == []
    ensures list != null ==> (list.next == null <==> |s| == 1)
  {
  }

  lemma SortedUnfold(cmp: Compare, s: seq<Node>)
    ensures Sorted(cmp, s) == if |s| < 2 then s
                              else Merged(cmp, Sorted(cmp, s[..|s| / 2]), Sorted(cmp, s[|s| / 2..]))
  {
  }

  /** Both parts sorted and merged. */
  method SortParts(l1: Node?, l2: Node?, cmp: Compare, ghost a: seq<Node>, ghost b: seq<Node>) returns (r: Node?)
    requires Chain(l1, a) && Chain(l2, b) && Disjoint(a, b) && a != [] && b != []
    modifies a, b
    ensures Chain(r, Merged(cmp, Sorted(cmp, a), Sorted(cmp, b)))
    decreases |a| + |b|, 0
  {
    hide Chain, Sorted, Merged, Inside;
    ghost var ra, rb := Sorted(cmp, a), Sorted(cmp, b);
    SortedInside(cmp, a);
    SortedInside(cmp, b);
    InsideDisjoint(ra, a, b);
    InsideDisjoint(rb, b, ra);
    var p := Sort(l1, cmp, a);
    assert Chain(p, ra);
    var q := Sort(l2, cmp, b);
    r := MergeParts(p, q, cmp, ra, rb, a, b);
  }

  method MergeParts(p: Node?, q: Node?, cmp: Compare, ghost ra: seq<Node>, ghost rb: seq<Node>,
                    ghost a: seq<Node>, ghost b: seq<Node>) returns (r: Node?)
    requires Chain(p, ra) && Chain(q, rb) && Disjoint(ra, rb) && Inside(ra, a) && Inside(rb, b)
    modifies a, b
    ensures Chain(r, Merged(cmp, ra, rb))
  {
    r := SortMerge(p, q, cmp, ra, rb);
  }

  /** lash_list_sort: the same nodes, relinked in the order of Sorted. Both halves are non-empty, so
    the recursion ends. */
  method Sort(list: Node?, cmp: Compare, ghost s: seq<Node>) returns (r: Node?)
    requires Chain(list, s)
    modifies s
    ensures Chain(r, Sorted(cmp, s))
    decreases |s|, 1
  {
    ChainLength(list, s);
    SortedUnfold(cmp, s);
    hide Chain, Sorted, Merged, Disjoint;
    if list == null {
      return null;
    }
    if list.next == null {
      return list;
    }
    ghost var a, b := s[..|s| / 2], s[|s| / 2..];
    var l2 := Cut(list, s);
    SplitInside(s, |s| / 2);
    r := SortParts(list, l2, cmp, a, b);
  }
}
