/** The intrusive circular doubly linked list, and what its operations do to the sequence it holds. */
module KList {
  import opened Sequences

  /** struct list_head: a node of a list, or the head of one. Poisoned pointers are null. */
  class Link {
    var next: Link?
    var prev: Link?

    constructor ()
      ensures next == this && prev == this
      ensures Ring(this, [])
    {
      next, prev := this, this;
    }
  }

  // ------------------------------------------------------------------ valid lists

  /** The node at position `i`, counted from the head; the head again behind the last one. */
  function Node(head: Link, s: seq<Link>, i: nat): Link
    requires i <= |s| + 1
  {
    if 1 <= i <= |s| then s[i - 1] else head
  }

  ghost predicate Linked(a: Link, b: Link)
    reads a, b
  {
    a.next == b && b.prev == a
  }

  /** `head` is the head of a well formed list of the links `s`. */
  ghost predicate Ring(head: Link, s: seq<Link>)
    reads head, s
  {
    && NoDup(s) && head !in s
    && forall i :: 0 <= i <= |s| ==> Linked(Node(head, s, i), Node(head, s, i + 1))
  }

  predicate Apart(head: Link, s: seq<Link>, other: Link, t: seq<Link>) {
    head != other && head !in t && other !in s && forall i :: 0 <= i < |s| ==> s[i] !in t
  }

  function Inserted(s: seq<Link>, k: nat, link: Link): seq<Link>
    requires k <= |s|
  {
    s[..k] + [link] + s[k..]
  }

  /** A list determines its links: both ways around, the ring spells out the same sequence. */
  lemma {:induction false} RingIsUnique(head: Link, s: seq<Link>, t: seq<Link>)
    requires Ring(head, s) && Ring(head, t)
    ensures s == t
  {
    var m := if |s| < |t| then |s| else |t|;
    SameUpTo(head, s, t, m);
    assert Node(head, s, m).next == Node(head, s, m + 1);
    assert Node(head, t, m).next == Node(head, t, m + 1);
    forall i | 0 <= i < |s| && i < |t|
      ensures s[i] == t[i]
    {
      SameUpTo(head, s, t, i + 1);
    }
  }

  lemma {:induction false} SameUpTo(head: Link, s: seq<Link>, t: seq<Link>, i: nat)
    requires Ring(head, s) && Ring(head, t) && i <= |s| && i <= |t|
    ensures Node(head, s, i) == Node(head, t, i)
  {
    if i > 0 {
      SameUpTo(head, s, t, i - 1);
      assert Node(head, s, i - 1).next == Node(head, s, i);
      assert Node(head, t, i - 1).next == Node(head, t, i);
    }
  }

  // ------------------------------------------------------------------ adding

  /** __list_add between the positions k and k + 1. The order of the writes matters: `prev` and
    `next` are the same node when the list is empty. */
  method Insert(link: Link, prev: Link, next: Link, ghost head: Link, ghost s: seq<Link>, ghost k: nat)
    requires Ring(head, s) && link != head && link !in s && k <= |s|
    requires prev == Node(head, s, k) && next == Node(head, s, k + 1)
    modifies next`prev, link, prev`next
    ensures Ring(head, Inserted(s, k, link))
  {
    next.prev := link;
    link.next := next;
    link.prev := prev;
    prev.next := link;
    InsertedNodes(head, s, k, link);
    ghost var t := Inserted(s, k, link);
    forall i | 0 <= i <= |t|
      ensures Linked(Node(head, t, i), Node(head, t, i + 1))
    {
      if i < k {
        assert old(Linked(Node(head, s, i), Node(head, s, i + 1)));
      } else if i > k + 1 {
        assert old(Linked(Node(head, s, i - 1), Node(head, s, i)));
      }
    }
  }

  lemma InsertedNodes(head: Link, s: seq<Link>, k: nat, link: Link)
    requires NoDup(s) && head !in s && link != head && link !in s && k <= |s|
    ensures var t := Inserted(s, k, link);
            && NoDup(t) && head !in t && |t| == |s| + 1
            && (forall i :: 0 <= i <= k ==> Node(head, t, i) == Node(head, s, i))
            && Node(head, t, k + 1) == link
            && forall i :: k + 2 <= i <= |t| + 1 ==> Node(head, t, i) == Node(head, s, i - 1)
    ensures forall i, j :: 0 <= i < j <= |s| ==> Node(head, s, i) != Node(head, s, j)
  {
  }

  /** list_add */
  method Add(link: Link, head: Link, ghost s: seq<Link>)
    requires Ring(head, s) && link != head && link !in s
    modifies link, head, s
    ensures Ring(head, [link] + s)
  {
    assert Linked(Node(head, s, 0), Node(head, s, 1));
    Insert(link, head, head.next, head, s, 0);
    assert Inserted(s, 0, link) == [link] + s;
  }

  /** list_add_tail */
  method AddTail(link: Link, head: Link, ghost s: seq<Link>)
    requires Ring(head, s) && link != head && link !in s
    modifies link, head, s
    ensures Ring(head, s + [link])
  {
    assert Linked(Node(head, s, |s|), Node(head, s, |s| + 1));
    Insert(link, head.prev, head, head, s, |s|);
    assert Inserted(s, |s|, link) == s + [link];
  }

  // ------------------------------------------------------------------ removing

  /** __list_del */
  method Unlink(prev: Link, next: Link, ghost head: Link, ghost s: seq<Link>, ghost k: nat)
    requires Ring(head, s) && k < |s|
    requires prev == Node(head, s, k) && next == Node(head, s, k + 2)
    modifies next`prev, prev`next
    ensures Ring(head, Without(s, k))
  {
    next.prev := prev;
    prev.next := next;
    ghost var t := Without(s, k);
    WithoutNodes(head, s, k);
    forall i | 0 <= i <= |t|
      ensures Linked(Node(head, t, i), Node(head, t, i + 1))
    {
      if i < k {
        assert old(Linked(Node(head, s, i), Node(head, s, i + 1)));
      } else if i > k {
        assert old(Linked(Node(head, s, i + 1), Node(head, s, i + 2)));
      }
    }
  }

  lemma WithoutNodes(head: Link, s: seq<Link>, k: nat)
    requires NoDup(s) && head !in s && k < |s|
    ensures var t := Without(s, k);
            && NoDup(t) && head !in t && s[k] !in t && |t| == |s| - 1
            && (forall i :: 0 <= i <= k ==> Node(head, t, i) == Node(head, s, i))
            && forall i :: k < i <= |t| + 1 ==> Node(head, t, i) == Node(head, s, i + 1)
    ensures forall i, j :: 0 <= i < j <= |s| ==> Node(head, s, i) != Node(head, s, j)
  {
  }

  /** The neighbours of an entry. */
  lemma Neighbours(head: Link, s: seq<Link>, k: nat)
    requires Ring(head, s) && k < |s|
    ensures s[k].prev == Node(head, s, k) && s[k].next == Node(head, s, k + 2)
  {
    assert Linked(Node(head, s, k), Node(head, s, k + 1)) && Linked(Node(head, s, k + 1), Node(head, s, k + 2));
  }

  /** list_del: the entry's own pointers are poisoned. */
  method Del(entry: Link, ghost head: Link, ghost s: seq<Link>, ghost k: nat)
    requires Ring(head, s) && k < |s| && s[k] == entry
    modifies head, s
    ensures Ring(head, Without(s, k)) && entry !in Without(s, k)
    ensures entry.next == null && entry.prev == null
  {
    Neighbours(head, s, k);
    WithoutNodes(head, s, k);
    Unlink(entry.prev, entry.next, head, s, k);
    entry.next := null;
    entry.prev := null;
  }

  /** list_del_init: the entry becomes an empty list of its own. */
  method DelInit(entry: Link, ghost head: Link, ghost s: seq<Link>, ghost k: nat)
    requires Ring(head, s) && k < |s| && s[k] == entry
    modifies head, s
    ensures Ring(head, Without(s, k)) && Ring(entry, [])
  {
    Neighbours(head, s, k);
    WithoutNodes(head, s, k);
    Unlink(entry.prev, entry.next, head, s, k);
    entry.next := entry;
    entry.prev := entry;
  }

  lemma ApartNodes(head: Link, s: seq<Link>, to: Link, t: seq<Link>, k: nat)
    requires Apart(head, s, to, t) && k < |s| && head !in s
    ensures Apart(head, Without(s, k), to, t)
    ensures Node(head, s, k) != to && Node(head, s, k) !in t
    ensures Node(head, s, k + 2) != to && Node(head, s, k + 2) !in t
    ensures s[k] != to && s[k] !in t && s[k] != head
  {
    assert s[k] in s && (k > 0 ==> s[k - 1] in s) && (k + 1 < |s| ==> s[k + 1] in s);
  }

  /** list_move: from one list to the front of another, which may be the same one. */
  method Move(entry: Link, to: Link, ghost t: seq<Link>, ghost head: Link, ghost s: seq<Link>, ghost k: nat)
    requires Ring(head, s) && k < |s| && s[k] == entry
    requires Ring(to, t) && if to == head then t == s else Apart(head, s, to, t)
    modifies head, s, to, t
    ensures to == head ==> Ring(head, [entry] + Without(s, k))
    ensures to != head ==> Ring(head, Without(s, k)) && Ring(to, [entry] + t)
  {
    Neighbours(head, s, k);
    WithoutNodes(head, s, k);
    if to != head { ApartNodes(head, s, to, t, k); }
    Unlink(entry.prev, entry.next, head, s, k);
    hide Ring;
    Add(entry, to, if to == head then Without(s, k) else t);
  }

  /** list_move_tail: from one list to the end of another, which may be the same one. */
  method MoveTail(entry: Link, to: Link, ghost t: seq<Link>, ghost head: Link, ghost s: seq<Link>, ghost k: nat)
    requires Ring(head, s) && k < |s| && s[k] == entry
    requires Ring(to, t) && if to == head then t == s else Apart(head, s, to, t)
    modifies head, s, to, t
    ensures to == head ==> Ring(head, Without(s, k) + [entry])
    ensures to != head ==> Ring(head, Without(s, k)) && Ring(to, t + [entry])
  {
    Neighbours(head, s, k);
    WithoutNodes(head, s, k);
    if to != head { ApartNodes(head, s, to, t, k); }
    Unlink(entry.prev, entry.next, head, s, k);
    hide Ring;
    AddTail(entry, to, if to == head then Without(s, k) else t);
  }

  // ------------------------------------------------------------------ joining

  /** list_empty */
  method IsEmpty(head: Link, ghost s: seq<Link>) returns (empty: bool)
    requires Ring(head, s)
    ensures empty <==> s == []
  {
    assert Linked(Node(head, s, 0), Node(head, s, 1));
    empty := head.next == head;
  }

  /** __list_splice */
  method SpliceLinks(list: Link, head: Link, ghost s: seq<Link>, ghost t: seq<Link>)
    requires Ring(list, s) && Ring(head, t) && Apart(list, s, head, t) && s != []
    modifies s, head, t
    ensures Ring(head, s + t)
    ensures list.next == s[0] && list.prev == s[|s| - 1]
  {
    assert Linked(Node(list, s, 0), Node(list, s, 1)) && Linked(Node(list, s, |s|), Node(list, s, |s| + 1));
    assert Linked(Node(head, t, 0), Node(head, t, 1));
    var first, last, at := list.next, list.prev, head.next;
    first.prev := head;
    head.next := first;
    last.next := at;
    at.prev := last;
    ghost var u := s + t;
    assert NoDup(u) by {
      assert forall i, j :: 0 <= i < |s| && 0 <= j < |t| ==> s[i] != t[j];
    }
    forall i | 0 <= i <= |u|
      ensures Linked(Node(head, u, i), Node(head, u, i + 1))
    {
      if 0 < i < |s| {
        assert old(Linked(Node(list, s, i), Node(list, s, i + 1)));
      } else if i > |s| {
        assert old(Linked(Node(head, t, i - |s|), Node(head, t, i - |s| + 1)));
      }
    }
  }

  /** list_splice: the links of `list` come to the front of `head`. The emptied head is left as it
    is: unless it was empty, it still points at the links it has lost, and is not a list any more. */
  method Splice(list: Link, head: Link, ghost s: seq<Link>, ghost t: seq<Link>)
    requires Ring(list, s) && Ring(head, t) && Apart(list, s, head, t)
    modifies s, head, t
    ensures Ring(head, s + t)
    ensures if s == [] then Ring(list, []) else list.next == s[0] && s[0].prev == head
  {
    var empty := IsEmpty(list, s);
    if !empty {
      SpliceLinks(list, head, s, t);
      assert Linked(Node(head, s + t, 0), Node(head, s + t, 1));
    } else {
      assert s + t == t;
    }
  }

  /** list_splice_init: as Splice, and the emptied list is an empty list again. */
  method SpliceInit(list: Link, head: Link, ghost s: seq<Link>, ghost t: seq<Link>)
    requires Ring(list, s) && Ring(head, t) && Apart(list, s, head, t)
    modifies list, s, head, t
    ensures Ring(head, s + t) && Ring(list, [])
  {
    var empty := IsEmpty(list, s);
    if !empty {
      SpliceLinks(list, head, s, t);
      list.next := list;
      list.prev := list;
      assert list !in s + t;
    } else {
      assert s + t == t;
    }
  }

  // ------------------------------------------------------------------ walking

  function Kept(s: seq<Link>, doomed: set<Link>): seq<Link> {
    if s == [] then [] else Kept(s[..|s| - 1], doomed) + if s[|s| - 1] in doomed then [] else [s[|s| - 1]]
  }

  lemma {:induction false} KeptAre(s: seq<Link>, doomed: set<Link>)
    ensures forall l :: l in Kept(s, doomed) <==> l in s && l !in doomed
    ensures |Kept(s, doomed)| <= |s|
  {
    if s != [] { KeptAre(s[..|s| - 1], doomed); assert s == s[..|s| - 1] + [s[|s| - 1]]; }
  }

  /** The list while it is walked: what is kept of the visited entries, and the rest. */
  function Walked(s: seq<Link>, k: nat, doomed: set<Link>): seq<Link>
    requires k <= |s|
  {
    Kept(s[..k], doomed) + s[k..]
  }

  lemma WalkedOneMore(s: seq<Link>, k: nat, doomed: set<Link>)
    requires k < |s|
    ensures Walked(s, k, doomed) == Kept(s[..k], doomed) + [s[k]] + s[k + 1..]
    ensures s[k] in doomed ==> Walked(s, k + 1, doomed) == Kept(s[..k], doomed) + s[k + 1..]
    ensures s[k] !in doomed ==> Walked(s, k + 1, doomed) == Kept(s[..k], doomed) + [s[k]] + s[k + 1..]
    ensures s[..k] + [s[k]] == s[..k + 1]
  {
    assert s[..k + 1][..k] == s[..k];
    assert s[k..] == [s[k]] + s[k + 1..];
  }

  lemma WalkedEnds(s: seq<Link>, doomed: set<Link>)
    ensures Walked(s, 0, doomed) == s && Walked(s, |s|, doomed) == Kept(s, doomed)
  {
    assert s[..0] == [] && s[..|s|] == s;
  }

  lemma WalkedNext(head: Link, s: seq<Link>, k: nat, doomed: set<Link>)
    requires k <= |s| && Ring(head, Walked(s, k, doomed))
    ensures if k < |s| then s[k].next == Node(head, s, k + 2) else head.next != null
  {
    var w, at := Walked(s, k, doomed), |Kept(s[..k], doomed)|;
    StepNext(head, w, if k < |s| then at + 1 else 0);
  }

  /** Where the links of a list are while it is walked. */
  lemma WalkFrame(head: Link, s: seq<Link>, k: nat, doomed: set<Link>, w: seq<Link>)
    requires NoDup(s) && head !in s && k < |s| && w == Walked(s, k, doomed)
    ensures forall i :: 0 <= i < |w| ==> w[i] in s
    ensures forall i :: 0 <= i < k && s[i] in doomed ==> s[i] != head && s[i] !in w
  {
    var kept, rest := Kept(s[..k], doomed), s[k..];
    KeptAre(s[..k], doomed);
    forall i | 0 <= i < |w|
      ensures w[i] in s
    {
      assert w[i] == if i < |kept| then kept[i] else s[k + (i - |kept|)];
      if i < |kept| { assert kept[i] in kept; }
    }
    forall i | 0 <= i < k ensures s[i] !in rest {}
  }

  /** The body of the loop: the entry is deleted or left alone. */
  method Visit(pos: Link, doomed: set<Link>, head: Link, ghost s: seq<Link>, ghost k: nat)
    requires NoDup(s) && head !in s && k < |s| && pos == s[k]
    requires Ring(head, Walked(s, k, doomed)) && Poisoned(s, k, doomed)
    modifies head, s
    ensures Ring(head, Walked(s, k + 1, doomed)) && Poisoned(s, k + 1, doomed)
  {
    WalkedOneMore(s, k, doomed);
    if pos in doomed {
      ghost var w, kept := Walked(s, k, doomed), Kept(s[..k], doomed);
      WalkFrame(head, s, k, doomed, w);
      assert w[|kept|] == pos && Without(w, |kept|) == Walked(s, k + 1, doomed);
      hide Ring, Walked, NoDup, Kept;
      Del(pos, head, w, |kept|);
    }
  }

  ghost predicate Poisoned(s: seq<Link>, k: nat, doomed: set<Link>)
    requires k <= |s|
    reads s
  {
    forall i :: 0 <= i < k && s[i] in doomed ==> s[i].next == null && s[i].prev == null
  }

  /** The walk stands before position `k`: at its entry, or at the head again. `n` is the one after it. */
  ghost predicate Walking(head: Link, s: seq<Link>, k: nat, doomed: set<Link>, pos: Link, n: Link?)
    requires k <= |s|
    reads head, s, Walked(s, k, doomed)
  {
    && NoDup(s) && head !in s && pos == Node(head, s, k + 1)
    && (k < |s| ==> n == Node(head, s, k + 2))
    && Ring(head, Walked(s, k, doomed)) && Poisoned(s, k, doomed)
  }

  lemma WalkingNext(head: Link, s: seq<Link>, k: nat, doomed: set<Link>, pos: Link)
    requires k <= |s| && NoDup(s) && head !in s && pos == Node(head, s, k + 1)
    requires Ring(head, Walked(s, k, doomed)) && Poisoned(s, k, doomed)
    ensures Walking(head, s, k, doomed, pos, pos.next)
  {
    WalkedNext(head, s, k, doomed);
  }

  lemma WalkingStarts(head: Link, s: seq<Link>, doomed: set<Link>)
    requires Ring(head, s)
    ensures head.next != null && Walking(head, s, 0, doomed, head.next, head.next.next)
  {
    WalkedEnds(s, doomed);
    StepNext(head, s, 0);
    WalkingNext(head, s, 0, doomed, head.next);
  }

  lemma WalkingAt(head: Link, s: seq<Link>, k: nat, doomed: set<Link>, pos: Link, n: Link?)
    requires k <= |s| && Walking(head, s, k, doomed, pos, n)
    ensures pos == head <==> k == |s|
    ensures pos != head ==> pos == s[k] && s[..k] + [pos] == s[..k + 1] && n != null
    ensures pos == head ==> Ring(head, Kept(s, doomed)) && Poisoned(s, |s|, doomed) && s[..k] == s
  {
    WalkedEnds(s, doomed);
    hide Ring, Walked, Kept, Poisoned;
  }

  method Step(head: Link, doomed: set<Link>, pos: Link, n: Link, ghost s: seq<Link>, ghost k: nat)
    requires k <= |s| && Walking(head, s, k, doomed, pos, n) && pos != head
    modifies head, s
    ensures k < |s| && Walking(head, s, k + 1, doomed, n, n.next)
  {
    WalkingAt(head, s, k, doomed, pos, n);
    hide Ring, Walked, Kept;
    Visit(pos, doomed, head, s, k);
    WalkingNext(head, s, k + 1, doomed, n);
  }

  /** list_for_each_safe with a body that deletes some of the entries: every entry is visited once,
    in order, and exactly the doomed ones are gone. */
  method DeleteMatching(head: Link, doomed: set<Link>, ghost s: seq<Link>) returns (visited: seq<Link>)
    requires Ring(head, s)
    modifies head, s
    ensures visited == s
    ensures Ring(head, Kept(s, doomed))
    ensures Poisoned(s, |s|, doomed)
  {
    WalkingStarts(head, s, doomed);
    hide *;
    visited := [];
    ghost var k := 0;
    var pos: Link := head.next;
    var n := pos.next;
    while pos != head
      invariant k <= |s| && Walking(head, s, k, doomed, pos, n) && visited == s[..k]
      decreases |s| - k
    {
      WalkingAt(head, s, k, doomed, pos, n);
      Step(head, doomed, pos, n, s, k);
      visited := visited + [pos];
      k := k + 1;
      pos := n;
      n := pos.next;
    }
    WalkingAt(head, s, k, doomed, pos, n);
  }

  lemma StepNext(head: Link, s: seq<Link>, i: nat)
    requires Ring(head, s) && i <= |s|
    ensures Node(head, s, i).next == Node(head, s, i + 1)
  {
    assert Linked(Node(head, s, i), Node(head, s, i + 1));
  }

  // ------------------------------------------------------------------ the two client lists

  lemma TransferConserves(s: seq<Link>, k: nat, t: seq<Link>)
    requires k < |s|
    ensures multiset(Without(s, k)) + multiset([s[k]] + t) == multiset(s) + multiset(t)
  {
    assert s == s[..k] + [s[k]] + s[k + 1..];
  }

  lemma TransferApart(head: Link, s: seq<Link>, to: Link, t: seq<Link>, k: nat)
    requires Apart(head, s, to, t) && NoDup(s) && head !in s && k < |s|
    ensures Apart(head, Without(s, k), to, [s[k]] + t)
  {
    WithoutNodes(head, s, k);
    assert s[k] in s;
    var w := Without(s, k);
    forall i | 0 <= i < |w|
      ensures w[i] !in [s[k]] + t
    {
      assert w[i] in w && w[i] == if i < k then s[i] else s[i + 1];
    }
  }

  /** The clients of a project: the connected ones and the lost ones. */
  class ClientLists {
    const clients: Link
    const lost: Link
    ghost var up: seq<Link>
    ghost var down: seq<Link>

    /** Both lists are well formed, and no client is in both. */
    ghost predicate Valid()
      reads this, clients, lost, up, down
    {
      Ring(clients, up) && Ring(lost, down) && Apart(clients, up, lost, down)
    }

    constructor ()
      ensures Valid() && up == [] && down == []
    {
      clients := new Link();
      lost := new Link();
      up, down := [], [];
    }

    /** client_disconnected: the client goes from the clients to the lost ones; every client is
      still in exactly one of the lists, and none came or went. */
    method Lose(client: Link, ghost k: nat)
      requires Valid() && k < |up| && up[k] == client
      modifies this, clients, lost, up, down
      ensures Valid() && up == Without(old(up), k) && down == [client] + old(down)
      ensures multiset(up) + multiset(down) == old(multiset(up) + multiset(down))
    {
      TransferConserves(up, k, down);
      TransferApart(clients, up, lost, down, k);
      Transfer(client, lost, down, clients, up, k);
      up, down := Without(up, k), [client] + down;
    }

    /** client_resume_project: the way back. */
    method Resume(client: Link, ghost k: nat)
      requires Valid() && k < |down| && down[k] == client
      modifies this, clients, lost, up, down
      ensures Valid() && down == Without(old(down), k) && up == [client] + old(up)
      ensures multiset(down) + multiset(up) == old(multiset(down) + multiset(up))
    {
      TransferConserves(down, k, up);
      assert Apart(lost, down, clients, up) by {
        assert forall i, j :: 0 <= i < |up| && 0 <= j < |down| ==> up[i] != down[j];
      }
      TransferApart(lost, down, clients, up, k);
      Transfer(client, clients, up, lost, down, k);
      down, up := Without(down, k), [client] + up;
      assert Apart(clients, up, lost, down) by {
        assert forall i, j :: 0 <= i < |up| && 0 <= j < |down| ==> up[i] != down[j];
      }
    }
  }

  /** list_del from one list, then list_add to the front of another. */
  method Transfer(entry: Link, to: Link, ghost t: seq<Link>, ghost head: Link, ghost s: seq<Link>, ghost k: nat)
    requires Ring(head, s) && k < |s| && s[k] == entry
    requires Ring(to, t) && Apart(head, s, to, t)
    modifies head, s, to, t
    ensures Ring(head, Without(s, k)) && Ring(to, [entry] + t)
  {
    WithoutNodes(head, s, k);
    ApartNodes(head, s, to, t, k);
    hide Ring;
    Del(entry, head, s, k);
    Add(entry, to, t);
  }
}
