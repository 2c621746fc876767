/** The restore scheduler over every run: launch safety, deadlock freedom and the exact
  condition under which a restored project is ever announced as loaded. */
module RestoreSchedule {
  import opened Graph
  import opened SessionSpec
  import opened TaskAccounting
  import opened Sequences

  // ------------------------------------------------------------------ lists of ids

  ghost predicate DistinctIds(cs: seq<Client>) {
    forall i, j :: 0 <= i < j < |cs| ==> cs[i].id != cs[j].id
  }

  /** Dropping the first match of a duplicate-free list drops every match. */
  lemma {:induction false} RemoveFirstMembers(s: seq<Id>, id: Id)
    requires NoDup(s)
    ensures NoDup(RemoveFirst(s, id))
    ensures forall x :: x in RemoveFirst(s, id) <==> x in s && x != id
  {
    if s != [] {
      var tail := s[1..];
      assert s == [s[0]] + tail;
      assert s[0] !in tail;
      RemoveFirstMembers(tail, id);
    }
  }

  lemma {:induction false} KeepListedMembers(cs: seq<Client>, s: seq<Id>)
    ensures forall x :: x in KeepListed(cs, s) <==> x in s && Listed(cs, x)
    ensures NoDup(s) ==> NoDup(KeepListed(cs, s))
  {
    if s != [] {
      var tail := s[1..];
      assert s == [s[0]] + tail;
      KeepListedMembers(cs, tail);
      if NoDup(s) { assert s[0] !in tail; }
    }
  }

  lemma {:induction false} ReverseMembers(s: seq<Id>)
    ensures forall x :: x in Reverse(s) <==> x in s
    ensures NoDup(s) ==> NoDup(Reverse(s))
  {
    if s != [] {
      var tail := s[1..];
      assert s == [s[0]] + tail;
      ReverseMembers(tail);
      if NoDup(s) { assert s[0] !in tail; }
    }
  }

  // ------------------------------------------------------------------ launch signals of a list pass

  lemma ListedInit(cs: seq<Client>, x: Id)
    requires cs != []
    ensures Listed(cs, x) <==> Listed(cs[..|cs| - 1], x) || cs[|cs| - 1].id == x
  {
    var init := cs[..|cs| - 1];
    if Listed(init, x) {
      var k :| 0 <= k < |init| && init[k].id == x;
      assert cs[k].id == x;
    }
    if Listed(cs, x) {
      var k :| 0 <= k < |cs| && cs[k].id == x;
      assert k < |init| ==> init[k].id == x;
    }
  }

  lemma LastNotListed(cs: seq<Client>)
    requires cs != [] && DistinctIds(cs)
    ensures !Listed(cs[..|cs| - 1], cs[|cs| - 1].id)
  {
  }

  lemma CountMore(gs: seq<Signal>, id: Id, launched: bool, x: Id)
    ensures Count(gs + if launched then [Launch(id)] else [], Launch(x))
            == Count(gs, Launch(x)) + if launched && id == x then 1 else 0
  {
  }

  /** The launches one client causes, for a single client id `x`. */
  lemma {:induction false} SatisfyLaunchCount(cs: seq<Client>, id: Id, x: Id)
    requires DistinctIds(cs)
    ensures !Listed(cs, x) ==> Count(SatisfySignals(cs, id), Launch(x)) == 0
    ensures forall k :: 0 <= k < |cs| && cs[k].id == x ==>
              Count(SatisfySignals(cs, id), Launch(x)) == if SatisfyLaunches(cs[k], id) then 1 else 0
  {
    if cs != [] {
      var init, last := cs[..|cs| - 1], cs[|cs| - 1];
      SatisfyLaunchCount(init, id, x);
      ListedInit(cs, x);
      LastNotListed(cs);
      CountMore(SatisfySignals(init, id), last.id, SatisfyLaunches(last, id), x);
      hide Listed, DistinctIds, Count, SatisfyLaunches;
      assert forall k :: 0 <= k < |init| ==> cs[k] == init[k];
    }
  }

  lemma {:induction false} PrepareLaunchCount(cs: seq<Client>, all: seq<Client>, x: Id)
    requires DistinctIds(cs)
    ensures !Listed(cs, x) ==> Count(PrepareSignals(cs, all), Launch(x)) == 0
    ensures forall k :: 0 <= k < |cs| && cs[k].id == x ==>
              Count(PrepareSignals(cs, all), Launch(x)) == if KeepListed(all, cs[k].deps) == [] then 1 else 0
  {
    if cs != [] {
      var init, last := cs[..|cs| - 1], cs[|cs| - 1];
      PrepareLaunchCount(init, all, x);
      ListedInit(cs, x);
      LastNotListed(cs);
      CountMore(PrepareSignals(init, all), last.id, KeepListed(all, last.deps) == [], x);
      hide Listed, DistinctIds, Count, KeepListed;
      assert forall k :: 0 <= k < |init| ==> cs[k] == init[k];
    }
  }

  /** Launch passes emit launches only. */
  lemma OnlyLaunches(out: seq<Signal>, gs: seq<Signal>, g: Signal)
    requires forall h <- gs :: h.Launch?
    requires !g.Launch?
    ensures Count(out + gs, g) == Count(out, g)
  {
    assert g !in gs;
  }

  // ------------------------------------------------------------------ the project being restored

  /** A project as `project_load` leaves it: nothing runs, every client is lost. */
  ghost predicate Parsed(p: State) {
    && p.clients == [] && p.task == Idle && p.out == []
    && p.total == p.pending == p.progress == 0
    && 100 * |p.lost| < U32
    && LostOk(p.lost) && DistinctIds(p.lost)
    && (forall k :: 0 <= k < |p.lost| ==> p.lost[k].pid == 0 && !p.lost[k].restored && NoDup(p.lost[k].deps))
  }

  /** The clients of the project by id, with the dependencies that survive the sanity check. */
  ghost function Roster(p: State): map<Id, Client>
    requires Parsed(p)
  {
    map k | 0 <= k < |p.lost| :: p.lost[k].id := p.lost[k].(deps := KeepListed(p.lost, p.lost[k].deps))
  }

  /** The dependency graph of a roster. */
  ghost function DepsOf(b: map<Id, Client>): Deps {
    map id | id in b :: b[id].deps
  }

  ghost predicate SameClient(b: map<Id, Client>, c: Client) {
    && c.id in b && c.deps == b[c.id].deps && c.caps == b[c.id].caps && c.saved == b[c.id].saved
  }

  // ------------------------------------------------------------------ the scheduler's invariant

  /** A client that is still waiting or was launched and has not connected. `done` holds the
    ids that reported a successful restore, in order. */
  ghost predicate LostGood(b: map<Id, Client>, forks: map<Id, nat>, done: seq<Id>, launches: nat, c: Client) {
    && SameClient(b, c) && !c.restored && c.id !in done
    && NoDup(c.unsat) && (forall x :: x in c.unsat <==> x in c.deps && x !in done)
    && c.pid == (if c.unsat == [] then ForkPid(forks, c.id) else 0)
    && launches == if c.unsat == [] then 1 else 0
  }

  /** A client that has connected. */
  ghost predicate RunningGood(b: map<Id, Client>, forks: map<Id, nat>, done: seq<Id>, launches: nat, c: Client) {
    if c.restored then
      && SameClient(b, c) && launches == 1 && ForkPid(forks, c.id) != 0
      && (forall x :: x in c.deps ==> x in done)
      && (c.id in done ==> c.pending == 0 && Loads(c))
    else
      c.id !in b && c.pending == 0
  }

  ghost predicate AllLostGood(b: map<Id, Client>, done: seq<Id>, s: State) {
    forall k :: 0 <= k < |s.lost| ==> LostGood(b, s.forks, done, Count(s.out, Launch(s.lost[k].id)), s.lost[k])
  }

  ghost predicate AllRunningGood(b: map<Id, Client>, done: seq<Id>, s: State) {
    forall k :: 0 <= k < |s.clients| ==>
      RunningGood(b, s.forks, done, Count(s.out, Launch(s.clients[k].id)), s.clients[k])
  }

  /** Reports arrive in dependency order. */
  ghost predicate Ordered(b: map<Id, Client>, done: seq<Id>) {
    && NoDup(done)
    && forall i :: 0 <= i < |done| ==> done[i] in b && forall d :: d in b[done[i]].deps ==> d in done[..i]
  }

  ghost predicate Covered(b: map<Id, Client>, s: State) {
    forall id :: id in b ==> Listed(s.clients + s.lost, id)
  }

  ghost predicate Placed(b: map<Id, Client>, done: seq<Id>, s: State) {
    && AllLostGood(b, done, s)
    && AllRunningGood(b, done, s)
    && DistinctIds(s.clients + s.lost)
    && Covered(b, s)
    && Ordered(b, done)
    && (forall x :: x !in b ==> Count(s.out, Launch(x)) == 0)
  }

  /** The successful restore report a step delivers, if any. */
  ghost function Restores(s: State, step: Step): seq<Id> {
    match step
    case Report(name, task, percentage, _) =>
      var i := IndexByName(s.clients, name);
      if i < |s.clients| && Accepts(s.clients[i], task) && s.clients[i].kind.IsRestore() && percentage == 255
      then [s.clients[i].id] else []
    case Commit(name, task, payload, _) =>
      var i := IndexByName(s.clients, name);
      if i < |s.clients| && Accepts(s.clients[i], task) && s.clients[i].kind.IsRestore() && s.clients[i].hasStore
         && payload == Configs(true)
      then [s.clients[i].id] else []
    case Connect(_, _, _, _) => []
    case SaveProject => []
  }

  /** The clients that have reported a successful restore, in order of their reports. */
  ghost function Done(s: State, steps: seq<Step>): seq<Id> {
    if steps == [] then []
    else Done(s, steps[..|steps| - 1]) + Restores(Run(s, steps[..|steps| - 1]), steps[|steps| - 1])
  }

  // ------------------------------------------------------------------ the restore starts well

  lemma RestoreFields(p: State)
    requires Parsed(p)
    ensures var s := Restore(p);
            && s.clients == [] && s.forks == p.forks && s.task == Loading
            && s.out == [Percent(0)] + PrepareSignals(p.lost, p.lost)
            && |s.lost| == |p.lost| == s.total == s.pending
            && (forall k :: 0 <= k < |p.lost| ==> s.lost[k] == PrepareOne(p.lost[k], p.lost, p.forks))
  {
    PrepareAllAt(p.lost, p.lost, p.forks);
  }

  lemma RestoreKeeps(p: State)
    requires Parsed(p)
    ensures Inv(Restore(p))
  {
    RestoreFields(p);
    var s := Restore(p);
    PrepareAllAt(p.lost, p.lost, p.forks);
    LogAppend([], Percent(0));
    LogLaunches([Percent(0)], PrepareSignals(p.lost, p.lost));
    assert [] + [Percent(0)] == [Percent(0)];
  }

  lemma PreparedGood(p: State, k: nat, launches: nat)
    requires Parsed(p) && k < |p.lost|
    requires launches == if KeepListed(p.lost, p.lost[k].deps) == [] then 1 else 0
    ensures LostGood(Roster(p), p.forks, [], launches, PrepareOne(p.lost[k], p.lost, p.forks))
  {
    KeepListedMembers(p.lost, p.lost[k].deps);
    ReverseMembers(KeepListed(p.lost, p.lost[k].deps));
    ReverseEmpty(KeepListed(p.lost, p.lost[k].deps));
    RosterAt(p, k);
  }

  lemma RosterAt(p: State, k: nat)
    requires Parsed(p) && k < |p.lost|
    ensures p.lost[k].id in Roster(p)
    ensures Roster(p)[p.lost[k].id] == p.lost[k].(deps := KeepListed(p.lost, p.lost[k].deps))
  {
  }

  lemma StartCount(gs: seq<Signal>, g: Signal)
    requires !g.Percent?
    ensures Count([Percent(0)] + gs, g) == Count(gs, g)
  {
  }

  lemma RestoreLostGood(p: State)
    requires Parsed(p)
    ensures AllLostGood(Roster(p), [], Restore(p))
  {
    var s, b := Restore(p), Roster(p);
    RestoreFields(p);
    hide Restore, LostGood, Roster, Parsed, KeepListed, PrepareOne;
    forall k | 0 <= k < |s.lost|
      ensures LostGood(b, s.forks, [], Count(s.out, Launch(s.lost[k].id)), s.lost[k])
    {
      PreparedLaunches(p, k);
      PreparedGood(p, k, Count(s.out, Launch(p.lost[k].id)));
    }
  }

  lemma PreparedLaunches(p: State, k: nat)
    requires Parsed(p) && k < |p.lost|
    ensures PrepareOne(p.lost[k], p.lost, p.forks).id == p.lost[k].id
    ensures Count(Restore(p).out, Launch(p.lost[k].id)) == if KeepListed(p.lost, p.lost[k].deps) == [] then 1 else 0
  {
    RestoreFields(p);
    hide Restore;
    PrepareLaunchCount(p.lost, p.lost, p.lost[k].id);
    StartCount(PrepareSignals(p.lost, p.lost), Launch(p.lost[k].id));
  }

  lemma NoStrayLaunch(p: State, x: Id)
    requires Parsed(p) && x !in Roster(p)
    ensures Count(Restore(p).out, Launch(x)) == 0
  {
    RosterKeys(p, x);
    hide Roster;
    RestoreFields(p);
    hide Restore;
    PrepareLaunchCount(p.lost, p.lost, x);
    StartCount(PrepareSignals(p.lost, p.lost), Launch(x));
  }

  lemma RestoreNotLoaded(p: State)
    requires Parsed(p)
    ensures Count(Restore(p).out, ProjectLoaded) == 0
  {
    RestoreFields(p);
    PrepareAllAt(p.lost, p.lost, p.forks);
    hide Restore, Parsed, PrepareOne;
    OnlyLaunches([Percent(0)], PrepareSignals(p.lost, p.lost), ProjectLoaded);
  }

  lemma RestoreIds(p: State)
    requires Parsed(p)
    ensures Restore(p).clients == []
    ensures DistinctIds(Restore(p).clients + Restore(p).lost) && Covered(Roster(p), Restore(p))
  {
    RestoreFields(p);
    hide Restore, Roster, PrepareOne;
    RestoreCovered(p, Restore(p));
  }

  lemma RestorePlaced(p: State)
    requires Parsed(p)
    ensures Placed(Roster(p), [], Restore(p)) && Count(Restore(p).out, ProjectLoaded) == 0
  {
    hide Restore, Roster, Parsed, AllLostGood, DistinctIds, Covered;
    RestoreLostGood(p);
    RestoreIds(p);
    RestoreNotLoaded(p);
    forall x | x !in Roster(p)
      ensures Count(Restore(p).out, Launch(x)) == 0
    {
      NoStrayLaunch(p, x);
    }
  }

  lemma RosterKeys(p: State, x: Id)
    requires Parsed(p)
    ensures x in Roster(p) <==> Listed(p.lost, x)
  {
  }

  lemma RestoreCovered(p: State, s: State)
    requires Parsed(p) && s.clients == [] && |s.lost| == |p.lost|
    requires forall k :: 0 <= k < |p.lost| ==> s.lost[k] == PrepareOne(p.lost[k], p.lost, p.forks)
    ensures DistinctIds(s.clients + s.lost) && Covered(Roster(p), s)
  {
    hide Roster, KeepListed;
    assert s.clients + s.lost == s.lost;
    assert forall k :: 0 <= k < |p.lost| ==> s.lost[k].id == p.lost[k].id;
    forall id | id in Roster(p)
      ensures Listed(s.clients + s.lost, id)
    {
      RosterKeys(p, id);
      var k :| 0 <= k < |p.lost| && p.lost[k].id == id;
      assert s.lost[k].id == id;
    }
  }

  // ------------------------------------------------------------------ a report is accepted

  /** The waiting client `c` once client `id` is restored. */
  lemma SatisfiedGood(b: map<Id, Client>, forks: map<Id, nat>, done: seq<Id>, id: Id, launches: nat, c: Client)
    requires LostGood(b, forks, done, launches, c) && c.id != id
    ensures LostGood(b, forks, done + [id], launches + (if SatisfyLaunches(c, id) then 1 else 0),
                     SatisfyOne(c, id, forks))
  {
    RemoveFirstMembers(c.unsat, id);
    var d := SatisfyOne(c, id, forks);
    forall x
      ensures x in d.unsat <==> x in d.deps && x !in done + [id]
    {
    }
  }

  lemma NotInLost(s: State, i: nat)
    requires i < |s.clients| && DistinctIds(s.clients + s.lost)
    ensures !Listed(s.lost, s.clients[i].id)
  {
    forall k | 0 <= k < |s.lost|
      ensures s.lost[k].id != s.clients[i].id
    {
      assert (s.clients + s.lost)[i].id != (s.clients + s.lost)[|s.clients| + k].id;
    }
  }

  lemma LostDistinct(s: State)
    requires DistinctIds(s.clients + s.lost)
    ensures DistinctIds(s.lost) && DistinctIds(s.clients)
  {
    forall i, j | 0 <= i < j < |s.lost|
      ensures s.lost[i].id != s.lost[j].id
    {
      assert (s.clients + s.lost)[|s.clients| + i].id != (s.clients + s.lost)[|s.clients| + j].id;
    }
    forall i, j | 0 <= i < j < |s.clients|
      ensures s.clients[i].id != s.clients[j].id
    {
      assert (s.clients + s.lost)[i].id != (s.clients + s.lost)[j].id;
    }
  }

  /** The lists after an accepted end report of client `i`. */
  ghost predicate AfterReport(s: State, i: nat, ok: bool, t: State)
    requires i < |s.clients|
  {
    var c := s.clients[i];
    && t.clients == s.clients[i := c.(pending := 0, kind := NoTask, progress := 0)]
    && t.lost == (if ok then SatisfyAll(s.lost, c.id, s.forks) else s.lost)
    && t.forks == s.forks
    && (forall x :: Count(t.out, Launch(x))
                    == Count(s.out, Launch(x)) + if ok then Count(SatisfySignals(s.lost, c.id), Launch(x)) else 0)
    && Count(t.out, ProjectLoaded) == Count(s.out, ProjectLoaded) + (if s.pending == 1 then 1 else 0)
  }

  lemma LoadingEffect(s: State, i: nat, ok: bool, diskOk: bool)
    requires Inv(s) && s.task == Loading && i < |s.clients| && s.clients[i].pending != 0
    ensures s.clients[i].kind.IsRestore() && Loads(s.clients[i])
    ensures TaskEffect(s, i, ok, diskOk) == if ok then Satisfy(s, s.clients[i].id) else s
  {
    assert ClientOk(Loading, s.taskIter, s.clients[i]);
  }

  lemma TaskCompletedForks(s: State, i: nat, ok: bool, diskOk: bool)
    requires i < |s.clients|
    ensures TaskCompleted(s, i, ok, diskOk).forks == s.forks
  {
    hide SatisfyAll, SatisfySignals, ProjectTaskCompleted;
    ProjectTaskForks(TaskEffect(s, i, ok, diskOk), i);
  }

  lemma ProjectTaskForks(s: State, i: nat)
    requires i < |s.clients|
    ensures ProjectTaskCompleted(s, i).forks == s.forks
  {
  }

  lemma ReportLaunches(s: State, i: nat, ok: bool, diskOk: bool, x: Id)
    requires Inv(s) && s.task == Loading && i < |s.clients| && s.clients[i].pending != 0
    ensures Count(TaskCompleted(s, i, ok, diskOk).out, Launch(x))
            == Count(s.out, Launch(x)) + if ok then Count(SatisfySignals(s.lost, s.clients[i].id), Launch(x)) else 0
  {
    hide TaskCompleted, TaskEffect;
    LoadingEffect(s, i, ok, diskOk);
    TaskCompletedCounts(s, i, ok, diskOk, Launch(x));
  }

  lemma ReportLoaded(s: State, i: nat, ok: bool, diskOk: bool)
    requires Inv(s) && s.task == Loading && i < |s.clients| && s.clients[i].pending != 0
    ensures Count(TaskCompleted(s, i, ok, diskOk).out, ProjectLoaded)
            == Count(s.out, ProjectLoaded) + if s.pending == 1 then 1 else 0
  {
    hide TaskCompleted, TaskEffect, Inv;
    LoadingEffect(s, i, ok, diskOk);
    SatisfyAllAt(s.lost, s.clients[i].id, s.forks);
    TaskCompletedCounts(s, i, ok, diskOk, ProjectLoaded);
    OnlyLaunches(s.out, SatisfySignals(s.lost, s.clients[i].id), ProjectLoaded);
  }

  lemma ReportFields(s: State, i: nat, ok: bool, diskOk: bool)
    requires Inv(s) && s.task == Loading && i < |s.clients| && s.clients[i].pending != 0
    ensures AfterReport(s, i, ok, TaskCompleted(s, i, ok, diskOk))
  {
    TaskCompletedForks(s, i, ok, diskOk);
    hide TaskCompleted, TaskEffect, Inv;
    LoadingEffect(s, i, ok, diskOk);
    var d := CompletedFields(s, i, ok, diskOk);
    forall x
      ensures Count(TaskCompleted(s, i, ok, diskOk).out, Launch(x))
              == Count(s.out, Launch(x)) + if ok then Count(SatisfySignals(s.lost, s.clients[i].id), Launch(x)) else 0
    {
      ReportLaunches(s, i, ok, diskOk, x);
    }
    ReportLoaded(s, i, ok, diskOk);
  }

  lemma ReportLost(b: map<Id, Client>, done: seq<Id>, s: State, i: nat, t: State)
    requires AllLostGood(b, done, s) && DistinctIds(s.clients + s.lost) && i < |s.clients| && AfterReport(s, i, true, t)
    ensures |t.lost| == |s.lost| && forall k :: 0 <= k < |s.lost| ==> t.lost[k].id == s.lost[k].id
    ensures AllLostGood(b, done + [s.clients[i].id], t)
  {
    var id := s.clients[i].id;
    SatisfyAllAt(s.lost, id, s.forks);
    LostDistinct(s);
    NotInLost(s, i);
    hide LostGood;
    forall k | 0 <= k < |s.lost|
      ensures LostGood(b, t.forks, done + [id], Count(t.out, Launch(t.lost[k].id)), t.lost[k])
    {
      SatisfyLaunchCount(s.lost, id, s.lost[k].id);
      SatisfiedGood(b, s.forks, done, id, Count(s.out, Launch(s.lost[k].id)), s.lost[k]);
    }
  }

  lemma ReportRunning(b: map<Id, Client>, done: seq<Id>, s: State, i: nat, ok: bool, t: State)
    requires Placed(b, done, s) && i < |s.clients| && AfterReport(s, i, ok, t) && Loads(s.clients[i])
    ensures AllRunningGood(b, if ok then done + [s.clients[i].id] else done, t)
  {
    var done' := if ok then done + [s.clients[i].id] else done;
    LostDistinct(s);
    forall k | 0 <= k < |t.clients|
      ensures RunningGood(b, t.forks, done', Count(t.out, Launch(t.clients[k].id)), t.clients[k])
    {
      NotInLost(s, k);
      SatisfyLaunchCount(s.lost, s.clients[i].id, s.clients[k].id);
      assert RunningGood(b, s.forks, done, Count(s.out, Launch(s.clients[k].id)), s.clients[k]);
      assert k != i ==> s.clients[k].id != s.clients[i].id;
    }
  }

  lemma OrderedAppend(b: map<Id, Client>, done: seq<Id>, id: Id)
    requires Ordered(b, done) && id in b && id !in done
    requires forall d :: d in b[id].deps ==> d in done
    ensures Ordered(b, done + [id])
  {
    var r := done + [id];
    forall i | 0 <= i < |r|
      ensures r[i] in b && forall d :: d in b[r[i]].deps ==> d in r[..i]
    {
      assert i < |done| ==> r[..i] == done[..i];
      assert i == |done| ==> r[..i] == done;
    }
  }

  /** Lists with the same ids in the same places. */
  lemma SameIds(b: map<Id, Client>, s: State, t: State)
    requires DistinctIds(s.clients + s.lost) && Covered(b, s)
    requires |t.clients| == |s.clients| && |t.lost| == |s.lost|
    requires forall k :: 0 <= k < |s.clients| ==> t.clients[k].id == s.clients[k].id
    requires forall k :: 0 <= k < |s.lost| ==> t.lost[k].id == s.lost[k].id
    ensures DistinctIds(t.clients + t.lost) && Covered(b, t)
  {
    var u, v := s.clients + s.lost, t.clients + t.lost;
    assert forall k :: 0 <= k < |u| ==> u[k].id == v[k].id;
    forall id | id in b
      ensures Listed(v, id)
    {
      var k :| 0 <= k < |u| && u[k].id == id;
      assert v[k].id == id;
    }
  }

  lemma ReportPlaced(b: map<Id, Client>, done: seq<Id>, s: State, i: nat, ok: bool, t: State)
    requires Placed(b, done, s) && i < |s.clients| && s.clients[i].pending != 0 && Loads(s.clients[i])
    requires AfterReport(s, i, ok, t)
    ensures Placed(b, if ok then done + [s.clients[i].id] else done, t)
  {
    hide LostGood;
    var id := s.clients[i].id;
    assert RunningGood(b, s.forks, done, Count(s.out, Launch(id)), s.clients[i]);
    ReportRunning(b, done, s, i, ok, t);
    if ok {
      ReportLost(b, done, s, i, t);
      OrderedAppend(b, done, id);
    }
    SameIds(b, s, t);
    forall x | x !in b
      ensures Count(t.out, Launch(x)) == 0
    {
      StrayStaysStray(b, done, s, id, x);
    }
  }

  lemma StrayStaysStray(b: map<Id, Client>, done: seq<Id>, s: State, id: Id, x: Id)
    requires Placed(b, done, s) && x !in b
    ensures Count(SatisfySignals(s.lost, id), Launch(x)) == 0
  {
    LostDistinct(s);
    assert forall k :: 0 <= k < |s.lost| ==> SameClient(b, s.lost[k]);
    SatisfyLaunchCount(s.lost, id, x);
  }

  // ------------------------------------------------------------------ a client connects

  /** The lists after the lost client at `j` has connected as `d`. */
  ghost predicate AfterResume(s: State, j: nat, d: Client, t: State)
    requires j < |s.lost|
  {
    && d == s.lost[j].(name := d.name, restored := true, hasStore := d.hasStore,
                       pending := d.pending, kind := d.kind, progress := d.progress)
    && (d.pending != 0 <==> Loads(s.lost[j]))
    && t.clients == [d] + s.clients
    && t.lost == s.lost[..j] + s.lost[j + 1..]
    && t.forks == s.forks
    && (forall x :: Count(t.out, Launch(x)) == Count(s.out, Launch(x)))
    && Count(t.out, ProjectLoaded) == Count(s.out, ProjectLoaded)
                                      + (if Stateless(s.lost[j]) && s.pending == 1 then 1 else 0)
  }

  lemma StatelessResumeSignals(s: State, j: nat, name: nat, g: Signal)
    requires j < |s.lost| && Stateless(s.lost[j]) && !g.Percent? && g != ProjectSaved
    ensures Count(Resume(s, j, name).out, g)
            == Count(s.out, g) + if s.pending == 1 && g == ProjectLoaded then 1 else 0
  {
    hide Resume, ProjectTaskCompleted;
    var t := StatelessResumeUnfolds(s, j, name);
    ProjectTaskCompletedCounts(t, 0, g);
  }

  lemma ResumeForks(s: State, j: nat, name: nat)
    requires j < |s.lost|
    ensures Resume(s, j, name).forks == s.forks
  {
  }

  lemma StatelessAfterResume(s: State, j: nat, name: nat)
    requires Inv(s) && s.task == Loading && j < |s.lost| && Stateless(s.lost[j])
    ensures AfterResume(s, j, s.lost[j].(name := name, restored := true, progress := 100), Resume(s, j, name))
  {
    hide Resume;
    ResumeForks(s, j, name);
    assert LostOk(s.lost);
    StatelessResumeFields(s, j, name);
    forall x
      ensures Count(Resume(s, j, name).out, Launch(x)) == Count(s.out, Launch(x))
    {
      StatelessResumeSignals(s, j, name, Launch(x));
    }
    StatelessResumeSignals(s, j, name, ProjectLoaded);
  }

  lemma ResumeFields(s: State, j: nat, name: nat) returns (d: Client)
    requires Inv(s) && s.task == Loading && j < |s.lost|
    ensures AfterResume(s, j, d, Resume(s, j, name)) && d.name == name
  {
    if Stateless(s.lost[j]) {
      hide Resume, Inv, AfterResume;
      StatelessAfterResume(s, j, name);
      d := s.lost[j].(name := name, restored := true, progress := 100);
    } else {
      ResumeForks(s, j, name);
      assert LostOk(s.lost);
      hide Inv;
      d := ResumedClient(s.lost[j], name, s.taskIter + 1);
    }
  }

  lemma ResumeIds(b: map<Id, Client>, s: State, j: nat, d: Client, t: State)
    requires DistinctIds(s.clients + s.lost) && Covered(b, s)
    requires j < |s.lost| && d.id == s.lost[j].id
    requires t.clients == [d] + s.clients && t.lost == s.lost[..j] + s.lost[j + 1..]
    ensures DistinctIds(t.clients + t.lost) && Covered(b, t)
  {
    var u, v, n := s.clients + s.lost, t.clients + t.lost, |s.clients|;
    assert |v| == |u|;
    assert v[0].id == u[n + j].id;
    assert forall k :: 0 <= k < n + j ==> v[k + 1].id == u[k].id;
    assert forall k :: n + j < k < |u| ==> v[k].id == u[k].id;
    forall p, q | 0 <= p < q < |v|
      ensures v[p].id != v[q].id
    {
      var p', q' := if p == 0 then n + j else if p <= n + j then p - 1 else p, if q <= n + j then q - 1 else q;
      assert v[p].id == u[p'].id && v[q].id == u[q'].id && p' != q';
    }
    forall id | id in b
      ensures Listed(v, id)
    {
      var k :| 0 <= k < |u| && u[k].id == id;
      assert v[if k == n + j then 0 else if k < n + j then k + 1 else k].id == id;
    }
  }

  lemma LostAfterResume(b: map<Id, Client>, done: seq<Id>, s: State, j: nat, d: Client, t: State)
    requires AllLostGood(b, done, s) && j < |s.lost| && AfterResume(s, j, d, t)
    ensures AllLostGood(b, done, t)
  {
    hide LostGood;
    forall k | 0 <= k < |t.lost|
      ensures LostGood(b, t.forks, done, Count(t.out, Launch(t.lost[k].id)), t.lost[k])
    {
      var k' := if k < j then k else k + 1;
      assert t.lost[k] == s.lost[k'];
    }
  }

  lemma ResumePlaced(b: map<Id, Client>, done: seq<Id>, s: State, j: nat, d: Client, t: State)
    requires Placed(b, done, s) && j < |s.lost| && s.lost[j].pid != 0 && AfterResume(s, j, d, t)
    ensures Placed(b, done, t)
  {
    var c := s.lost[j];
    assert LostGood(b, s.forks, done, Count(s.out, Launch(c.id)), c);
    assert RunningGood(b, t.forks, done, Count(t.out, Launch(d.id)), d);
    LostAfterResume(b, done, s, j, d, t);
    ResumeIds(b, s, j, d, t);
    hide LostGood;
    PrependRunning(b, done, s, d, t);
  }

  lemma NewIds(b: map<Id, Client>, s: State, d: Client, t: State)
    requires DistinctIds(s.clients + s.lost) && Covered(b, s) && !Listed(s.clients + s.lost, d.id)
    requires t.clients == [d] + s.clients && t.lost == s.lost
    ensures DistinctIds(t.clients + t.lost) && Covered(b, t) && d.id !in b
  {
    var u, v := s.clients + s.lost, t.clients + t.lost;
    assert v == [d] + u;
    assert forall k :: 0 <= k < |u| ==> v[k + 1] == u[k];
    forall id | id in b
      ensures Listed(v, id)
    {
      var k :| 0 <= k < |u| && u[k].id == id;
      assert v[k + 1].id == id;
    }
  }

  /** Prepending a well-placed client. */
  lemma PrependRunning(b: map<Id, Client>, done: seq<Id>, s: State, d: Client, t: State)
    requires AllRunningGood(b, done, s) && t.clients == [d] + s.clients && t.forks == s.forks
    requires forall x :: Count(t.out, Launch(x)) == Count(s.out, Launch(x))
    requires RunningGood(b, s.forks, done, Count(s.out, Launch(d.id)), d)
    ensures AllRunningGood(b, done, t)
  {
    forall k | 0 <= k < |t.clients|
      ensures RunningGood(b, t.forks, done, Count(t.out, Launch(t.clients[k].id)), t.clients[k])
    {
      if k > 0 {
        assert t.clients[k] == s.clients[k - 1];
        assert RunningGood(b, s.forks, done, Count(s.out, Launch(s.clients[k - 1].id)), s.clients[k - 1]);
      }
    }
  }

  lemma NewClientPlaced(b: map<Id, Client>, done: seq<Id>, s: State, d: Client)
    requires Placed(b, done, s) && !Listed(s.clients + s.lost, d.id) && d.pending == 0 && !d.restored
    ensures Placed(b, done, s.(clients := [d] + s.clients))
  {
    var t := s.(clients := [d] + s.clients);
    NewIds(b, s, d, t);
    PrependRunning(b, done, s, d, t);
    hide LostGood, AllRunningGood, DistinctIds, Covered;
  }

  lemma ProgressFrame(s: State, i: nat, percentage: nat)
    requires i < |s.clients|
    ensures var t := ClientProgress(s, i, percentage);
            && t.clients == s.clients[i := s.clients[i].(progress := percentage)]
            && t.lost == s.lost && t.forks == s.forks
  {
  }

  lemma ProgressPlaced(b: map<Id, Client>, done: seq<Id>, s: State, i: nat, percentage: nat)
    requires Placed(b, done, s) && i < |s.clients|
    ensures Placed(b, done, ClientProgress(s, i, percentage))
    ensures Count(ClientProgress(s, i, percentage).out, ProjectLoaded) == Count(s.out, ProjectLoaded)
  {
    hide ClientProgress, LostGood, Count;
    var t := ClientProgress(s, i, percentage);
    ProgressFrame(s, i, percentage);
    forall x
      ensures Count(t.out, Launch(x)) == Count(s.out, Launch(x))
    {
      ClientProgressCounts(s, i, percentage, Launch(x));
    }
    ClientProgressCounts(s, i, percentage, ProjectLoaded);
    SameIds(b, s, t);
    forall k | 0 <= k < |t.clients|
      ensures RunningGood(b, t.forks, done, Count(t.out, Launch(t.clients[k].id)), t.clients[k])
    {
      assert RunningGood(b, s.forks, done, Count(s.out, Launch(s.clients[k].id)), s.clients[k]);
    }
  }

  // ------------------------------------------------------------------ every step

  lemma ConnectPlaced(b: map<Id, Client>, done: seq<Id>, s: State, pid: nat, name: nat, id: Id, caps: Caps)
    requires Inv(s) && s.task == Loading && Placed(b, done, s) && Allowed(s, Connect(pid, name, id, caps))
    ensures var t := AddClient(s, pid, name, id, caps);
            && Placed(b, done, t)
            && Count(t.out, ProjectLoaded) == Count(s.out, ProjectLoaded) + (if t.task == Loading then 0 else 1)
  {
    hide Placed;
    var j := IndexByPid(s.lost, pid);
    if pid != 0 && j < |s.lost| {
      var d := ResumeFields(s, j, name);
      ResumePlaced(b, done, s, j, d, Resume(s, j, name));
      ResumeTask(s, j, name);
    } else {
      NewClientPlaced(b, done, s, NewClient(id, caps, pid, name));
    }
  }

  lemma ResumeTask(s: State, j: nat, name: nat)
    requires Inv(s) && s.task == Loading && j < |s.lost|
    ensures Resume(s, j, name).task == if Stateless(s.lost[j]) && s.pending == 1 then Idle else Loading
  {
    if Stateless(s.lost[j]) { StatelessResumeFields(s, j, name); }
  }

  lemma CompletionPlaced(b: map<Id, Client>, done: seq<Id>, s: State, i: nat, ok: bool, diskOk: bool)
    requires Inv(s) && s.task == Loading && Placed(b, done, s) && i < |s.clients| && s.clients[i].pending != 0
    ensures var t := TaskCompleted(s, i, ok, diskOk);
            && Placed(b, if ok then done + [s.clients[i].id] else done, t)
            && Count(t.out, ProjectLoaded) == Count(s.out, ProjectLoaded) + (if t.task == Loading then 0 else 1)
  {
    hide TaskCompleted, TaskEffect, Placed;
    LoadingEffect(s, i, ok, diskOk);
    ReportFields(s, i, ok, diskOk);
    ReportPlaced(b, done, s, i, ok, TaskCompleted(s, i, ok, diskOk));
    var d := CompletedFields(s, i, ok, diskOk);
  }

  lemma KindWhileLoading(s: State, i: nat)
    requires Inv(s) && s.task == Loading && i < |s.clients| && s.clients[i].pending != 0
    ensures s.clients[i].kind.IsRestore()
  {
    assert ClientOk(Loading, s.taskIter, s.clients[i]);
  }

  /** An accepted Progress report of client `i`. */
  lemma ProgressedPlaced(b: map<Id, Client>, done: seq<Id>, s: State, i: nat, percentage: nat, diskOk: bool)
    requires Inv(s) && s.task == Loading && Placed(b, done, s) && i < |s.clients| && s.clients[i].pending != 0
    ensures var t := TaskProgressed(s, i, percentage, diskOk);
            && Placed(b, if percentage == 255 then done + [s.clients[i].id] else done, t)
            && Count(t.out, ProjectLoaded) == Count(s.out, ProjectLoaded) + (if t.task == Loading then 0 else 1)
  {
    hide Placed, TaskCompleted, Inv;
    if percentage == 0 || percentage == 255 {
      CompletionPlaced(b, done, s, i, percentage == 255, diskOk);
    } else {
      ProgressPlaced(b, done, s, i, if percentage > 99 then 99 else percentage);
    }
  }

  lemma NextPlaced(b: map<Id, Client>, done: seq<Id>, s: State, step: Step)
    requires Inv(s) && s.task == Loading && Placed(b, done, s) && Allowed(s, step)
    ensures Placed(b, done + Restores(s, step), Next(s, step))
    ensures Count(Next(s, step).out, ProjectLoaded)
            == Count(s.out, ProjectLoaded) + if Next(s, step).task == Loading then 0 else 1
  {
    hide Placed, TaskCompleted, TaskProgressed, AddClient, Inv, Allowed;
    assert done + [] == done;
    match step
    case SaveProject =>
    case Connect(pid, name, id, caps) => ConnectPlaced(b, done, s, pid, name, id, caps);
    case Report(name, task, percentage, diskOk) =>
      var i := IndexByName(s.clients, name);
      if i < |s.clients| && Accepts(s.clients[i], task) {
        KindWhileLoading(s, i);
        ProgressedPlaced(b, done, s, i, percentage, diskOk);
      }
    case Commit(name, task, payload, diskOk) =>
      var i := IndexByName(s.clients, name);
      if i < |s.clients| && Accepts(s.clients[i], task) && s.clients[i].hasStore && payload.Configs? {
        KindWhileLoading(s, i);
        CompletionPlaced(b, done, s, i, payload.valid, diskOk);
      }
  }
}
