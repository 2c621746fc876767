/** What every run of a restored project keeps, whether it can get stuck, and exactly which
  projects are ever announced as loaded. */
module RestoreRuns {
  import opened Graph
  import opened SessionSpec
  import opened TaskAccounting
  import opened RestoreSchedule
  import opened Sequences

  // ------------------------------------------------------------------ launch safety

  /** Every client is launched at most once, and only after all its surviving dependencies
    have reported a successful restore. */
  ghost predicate LaunchSafe(b: map<Id, Client>, done: seq<Id>, s: State) {
    forall x ::
      && Count(s.out, Launch(x)) <= 1
      && (Count(s.out, Launch(x)) == 1 ==> x in b && forall d <- b[x].deps :: d in done)
  }

  /** Where a client of the project is. */
  lemma Located(b: map<Id, Client>, done: seq<Id>, s: State, id: Id) returns (k: nat)
    requires Placed(b, done, s) && id in b
    ensures (k < |s.clients| && s.clients[k].id == id && s.clients[k].restored && SameClient(b, s.clients[k]))
            || (|s.clients| <= k < |s.clients| + |s.lost| && s.lost[k - |s.clients|].id == id)
  {
    assert Listed(s.clients + s.lost, id);
    k :| 0 <= k < |s.clients + s.lost| && (s.clients + s.lost)[k].id == id;
    if k < |s.clients| {
      assert RunningGood(b, s.forks, done, Count(s.out, Launch(id)), s.clients[k]);
    }
  }

  lemma PlacedIsSafe(b: map<Id, Client>, done: seq<Id>, s: State)
    requires Placed(b, done, s)
    ensures LaunchSafe(b, done, s)
  {
    forall x
      ensures Count(s.out, Launch(x)) <= 1
      ensures Count(s.out, Launch(x)) == 1 ==> x in b && forall d <- b[x].deps :: d in done
    {
      if x in b {
        var k := Located(b, done, s, x);
        if k < |s.clients| {
          assert RunningGood(b, s.forks, done, Count(s.out, Launch(x)), s.clients[k]);
        } else {
          var c := s.lost[k - |s.clients|];
          assert LostGood(b, s.forks, done, Count(s.out, Launch(x)), c);
        }
      }
    }
  }

  lemma DoneLoads(b: map<Id, Client>, done: seq<Id>, s: State, x: Id)
    requires Placed(b, done, s) && x in done
    ensures x in b && Loads(b[x])
  {
    var i :| 0 <= i < |done| && done[i] == x;
    var k := Located(b, done, s, x);
    assert AllLostGood(b, done, s);
    if k < |s.clients| {
      assert RunningGood(b, s.forks, done, Count(s.out, Launch(x)), s.clients[k]);
    }
  }

  // ------------------------------------------------------------------ the load ends

  lemma FinishOwesNothing(s: State, step: Step)
    requires Inv(s) && s.task == Loading && Allowed(s, step) && Next(s, step).task != Loading
    ensures Next(s, step).lost == [] && Sum(OwesLoading, Next(s, step).clients) == 0 && s.pending == 1
  {
    match step
    case SaveProject =>
    case Connect(pid, name, id, caps) =>
      var j := IndexByPid(s.lost, pid);
      hide Resume;
      ResumeTask(s, j, name);
      StatelessResumeFields(s, j, name);
      SumPrepend(OwesLoading, s.lost[j].(name := name, restored := true, progress := 100), s.clients);
    case Report(name, task, percentage, diskOk) =>
      FinishingCompletion(s, IndexByName(s.clients, name), percentage == 255, diskOk);
    case Commit(name, task, payload, diskOk) =>
      FinishingCompletion(s, IndexByName(s.clients, name), payload.valid, diskOk);
  }

  lemma FinishingCompletion(s: State, i: nat, ok: bool, diskOk: bool)
    requires Inv(s) && s.task == Loading && i < |s.clients| && s.clients[i].pending != 0
    requires TaskCompleted(s, i, ok, diskOk).task != Loading
    ensures var t := TaskCompleted(s, i, ok, diskOk);
            t.lost == [] && Sum(OwesLoading, t.clients) == 0 && s.pending == 1
  {
    LoadingEffect(s, i, ok, diskOk);
    SatisfyAllAt(s.lost, s.clients[i].id, s.forks);
    hide TaskCompleted, TaskEffect;
    var d := CompletedFields(s, i, ok, diskOk);
    OthersBound(s, i, d);
  }

  /** Everything that must be true of a project that has been announced as loaded. */
  ghost predicate AllUp(b: map<Id, Client>, forks: map<Id, nat>, done: seq<Id>) {
    && Ordered(b, done)
    && (forall x <- done :: x in b && Loads(b[x]))
    && (forall id <- b :: ForkPid(forks, id) != 0 && !Silent(b[id]) && forall d <- b[id].deps :: d in done)
  }

  /** Client `id` was launched once, has connected and is running. */
  ghost predicate UpAndRunning(s: State, id: Id) {
    && Count(s.out, Launch(id)) == 1
    && exists k :: 0 <= k < |s.clients| && s.clients[k].id == id && s.clients[k].restored
  }

  lemma FinishedIsRunning(b: map<Id, Client>, done: seq<Id>, t: State)
    requires Placed(b, done, t) && t.lost == []
    ensures forall id <- b :: UpAndRunning(t, id)
  {
    forall id | id in b
      ensures UpAndRunning(t, id)
    {
      var k := Located(b, done, t, id);
      assert RunningGood(b, t.forks, done, Count(t.out, Launch(id)), t.clients[k]);
    }
  }

  lemma FinishedIsUp(b: map<Id, Client>, done: seq<Id>, t: State)
    requires Placed(b, done, t) && t.lost == [] && Sum(OwesLoading, t.clients) == 0
    ensures AllUp(b, t.forks, done)
  {
    SumZeroEach(OwesLoading, t.clients);
    forall x | x in done
      ensures x in b && Loads(b[x])
    {
      DoneLoads(b, done, t, x);
    }
    forall id | id in b
      ensures ForkPid(t.forks, id) != 0 && !Silent(b[id]) && forall d <- b[id].deps :: d in done
    {
      var k := Located(b, done, t, id);
      assert RunningGood(b, t.forks, done, Count(t.out, Launch(id)), t.clients[k]);
      assert OwesLoading(t.clients[k]) == 0;
    }
  }

  // ------------------------------------------------------------------ after the load

  /** The clients of `s` are still there in `t`, behind any newcomers. */
  ghost predicate Stays(cs: seq<Client>, ds: seq<Client>) {
    && |cs| <= |ds|
    && forall k :: 0 <= k < |cs| ==>
         ds[|ds| - |cs| + k].id == cs[k].id && ds[|ds| - |cs| + k].restored == cs[k].restored
  }

  /** Once the project is not loading nothing is launched, nothing is announced as loaded, and
    nobody leaves. */
  ghost predicate Settles(s: State, t: State) {
    && t.task != Loading && t.forks == s.forks && Stays(s.clients, t.clients)
    && (forall x :: Count(t.out, Launch(x)) == Count(s.out, Launch(x)))
    && Count(t.out, ProjectLoaded) == Count(s.out, ProjectLoaded)
  }

  lemma IsSaving(s: State, i: nat)
    requires Inv(s) && s.task != Loading && i < |s.clients| && s.clients[i].pending != 0
    ensures s.task == Saving && s.clients[i].kind.IsSave()
  {
    assert ClientOk(s.task, s.taskIter, s.clients[i]);
  }

  lemma UpdateStays(cs: seq<Client>, i: nat, d: Client)
    requires i < |cs| && d.id == cs[i].id && d.restored == cs[i].restored
    ensures Stays(cs, cs[i := d])
  {
  }

  lemma SettledShape(s: State, i: nat, ok: bool, diskOk: bool)
    requires Inv(s) && s.task == Saving && i < |s.clients| && s.clients[i].pending != 0
    ensures var t := TaskCompleted(s, i, ok, diskOk);
            t.task != Loading && t.forks == s.forks && Stays(s.clients, t.clients)
  {
    TaskCompletedForks(s, i, ok, diskOk);
    SavingEffect(s, i, ok, diskOk);
    hide TaskCompleted, TaskEffect, Inv, Stays;
    var d := CompletedFields(s, i, ok, diskOk);
    UpdateStays(s.clients, i, d);
  }

  lemma SettledCompletion(s: State, i: nat, ok: bool, diskOk: bool)
    requires Inv(s) && s.task == Saving && i < |s.clients| && s.clients[i].pending != 0
    ensures Settles(s, TaskCompleted(s, i, ok, diskOk))
  {
    hide TaskCompleted, TaskEffect, Inv, Stays;
    SettledShape(s, i, ok, diskOk);
    SavingEffect(s, i, ok, diskOk);
    assert s.clients[i].kind != NoTask;
    TaskCompletedCounts(s, i, ok, diskOk, ProjectLoaded);
    forall x
      ensures Count(TaskCompleted(s, i, ok, diskOk).out, Launch(x)) == Count(s.out, Launch(x))
    {
      TaskCompletedCounts(s, i, ok, diskOk, Launch(x));
    }
  }

  lemma SettledProgress(s: State, i: nat, percentage: nat)
    requires s.task != Loading && i < |s.clients|
    ensures Settles(s, ClientProgress(s, i, percentage))
  {
    ClientProgressCounts(s, i, percentage, ProjectLoaded);
    forall x
      ensures Count(ClientProgress(s, i, percentage).out, Launch(x)) == Count(s.out, Launch(x))
    {
      ClientProgressCounts(s, i, percentage, Launch(x));
    }
  }

  lemma SettledReport(s: State, i: nat, percentage: nat, diskOk: bool)
    requires Inv(s) && s.task == Saving && i < |s.clients| && s.clients[i].pending != 0
    ensures Settles(s, TaskProgressed(s, i, percentage, diskOk))
  {
    hide TaskCompleted, ClientProgress, Inv;
    SettledCompletion(s, i, percentage == 255, diskOk);
    SettledProgress(s, i, if percentage > 99 then 99 else percentage);
  }

  /** A save announces no launch and no load. */
  lemma SaveCounts(s: State, g: Signal)
    requires SaveReady(s) && (g.Launch? || g == ProjectLoaded)
    ensures Count(Save(s).out, g) == Count(s.out, g)
  {
    SaveFields(s);
    hide Save;
  }

  lemma BeginSaveStays(cs: seq<Client>, task: nat)
    ensures Stays(cs, BeginSaveAll(cs, task))
  {
    BeginSaveAllAt(cs, task);
    hide BeginSaveAll;
  }

  lemma SettledSave(s: State)
    requires Inv(s) && s.task != Loading
    ensures Settles(s, Save(s))
  {
    if s.task == Idle {
      IdleIsReady(s);
      SaveFields(s);
      BeginSaveStays(s.clients, s.taskIter + 1);
      SaveCounts(s, ProjectLoaded);
      forall x ensures Count(Save(s).out, Launch(x)) == Count(s.out, Launch(x)) { SaveCounts(s, Launch(x)); }
      assert Save(s).forks == s.forks;
      hide Save, SaveReady, Inv, Stays, BeginSaveAll, Count;
    } else {
      SettlesSelf(s);
    }
  }

  lemma SettledConnect(s: State, pid: nat, name: nat, id: Id, caps: Caps)
    requires Inv(s) && s.task != Loading
    ensures Settles(s, AddClient(s, pid, name, id, caps))
  {
    hide Resume, Inv;
    if pid != 0 && IndexByPid(s.lost, pid) < |s.lost| { ResumesWhileLoading(s, pid); assert false; }
  }

  lemma SettledStep(s: State, step: Step)
    requires Inv(s) && s.task != Loading && Allowed(s, step)
    ensures Settles(s, Next(s, step)) && Restores(s, step) == []
  {
    hide Save, AddClient, Inv;
    match step
    case SaveProject =>
      hide Settles;
      SettledSave(s);
    case Connect(pid, name, id, caps) =>
      hide Settles;
      SettledConnect(s, pid, name, id, caps);
    case Report(name, task, percentage, diskOk) =>
      hide TaskProgressed, Settles;
      var i := IndexByName(s.clients, name);
      if i < |s.clients| && Accepts(s.clients[i], task) {
        IsSaving(s, i);
        SettledReport(s, i, percentage, diskOk);
      }
      assert Settles(s, s) by { SettlesSelf(s); }
    case Commit(name, task, payload, diskOk) =>
      hide TaskCompleted, Settles;
      var i := IndexByName(s.clients, name);
      if i < |s.clients| && Accepts(s.clients[i], task) {
        IsSaving(s, i);
        SettledCompletion(s, i, payload.Configs? && payload.valid, diskOk);
      }
      assert Settles(s, s) by { SettlesSelf(s); }
  }

  lemma SettlesSelf(s: State)
    requires s.task != Loading
    ensures Settles(s, s)
  {
  }

  lemma StillUp(s: State, t: State, id: Id)
    requires Settles(s, t) && UpAndRunning(s, id)
    ensures UpAndRunning(t, id)
  {
    var k :| 0 <= k < |s.clients| && s.clients[k].id == id && s.clients[k].restored;
    assert t.clients[|t.clients| - |s.clients| + k].id == id;
  }

  // ------------------------------------------------------------------ every run

  /** The state `s` of a run over the roster `b`, after the successful reports `done`. */
  ghost predicate RunGood(b: map<Id, Client>, forks: map<Id, nat>, done: seq<Id>, s: State) {
    && Inv(s) && s.forks == forks
    && LaunchSafe(b, done, s)
    && Count(s.out, ProjectLoaded) == (if s.task == Loading then 0 else 1)
    && (s.task == Loading ==> Placed(b, done, s))
    && (s.task != Loading ==> AllUp(b, forks, done) && forall id <- b :: UpAndRunning(s, id))
  }

  lemma NextForks(s: State, step: Step)
    ensures Next(s, step).forks == s.forks
  {
    match step
    case SaveProject =>
    case Connect(pid, name, id, caps) =>
      var j := IndexByPid(s.lost, pid);
      if j < |s.lost| { ResumeForks(s, j, name); }
    case Report(name, task, percentage, diskOk) =>
      hide TaskCompleted;
      var i := IndexByName(s.clients, name);
      if i < |s.clients| { TaskCompletedForks(s, i, percentage == 255, diskOk); }
    case Commit(name, task, payload, diskOk) =>
      hide TaskCompleted;
      var i := IndexByName(s.clients, name);
      if i < |s.clients| && payload.Configs? { TaskCompletedForks(s, i, payload.valid, diskOk); }
  }

  lemma NextGood(b: map<Id, Client>, forks: map<Id, nat>, done: seq<Id>, s: State, step: Step)
    requires RunGood(b, forks, done, s) && Allowed(s, step)
    ensures RunGood(b, forks, done + Restores(s, step), Next(s, step))
  {
    hide Next, Inv, Placed, AllUp, Restores, Allowed;
    var t, done' := Next(s, step), done + Restores(s, step);
    NextKeeps(s, step);
    NextForks(s, step);
    if s.task == Loading {
      NextPlaced(b, done, s, step);
      PlacedIsSafe(b, done', t);
      if t.task != Loading {
        FinishOwesNothing(s, step);
        FinishedIsUp(b, done', t);
        FinishedIsRunning(b, done', t);
      }
    } else {
      SettledStep(s, step);
      assert done' == done;
      hide Settles, UpAndRunning;
      forall id | id in b
        ensures UpAndRunning(t, id)
      {
        StillUp(s, t, id);
      }
    }
  }

  /** Safety over every run that starts with the restore of a parsed project; and what is true from
    the moment it has ended: everybody was launched exactly once and is running, and whoever
    somebody depends on has reported success. */
  lemma {:induction false} RestoreRun(p: State, steps: seq<Step>)
    requires Parsed(p) && AllowedRun(Restore(p), steps)
    ensures RunGood(Roster(p), p.forks, Done(Restore(p), steps), Run(Restore(p), steps))
  {
    hide Next, Restores, Restore, Roster;
    if steps == [] {
      RestoreKeeps(p);
      RestorePlaced(p);
      RestoreFields(p);
      PlacedIsSafe(Roster(p), [], Restore(p));
    } else {
      var init := steps[..|steps| - 1];
      RestoreRun(p, init);
      hide RunGood;
      NextGood(Roster(p), p.forks, Done(Restore(p), init), Run(Restore(p), init), steps[|steps| - 1]);
    }
  }

  // ------------------------------------------------------------------ deadlock freedom

  /** Client `id` was launched and has not connected, or is connected and owes a report. */
  ghost predicate UnderWay(s: State, id: Id) {
    || (exists k :: 0 <= k < |s.lost| && s.lost[k].id == id && s.lost[k].unsat == [])
    || (exists k :: 0 <= k < |s.clients| && s.clients[k].id == id && s.clients[k].restored && s.clients[k].pending != 0)
  }

  /** Client `id` is connected, has no task, and never reported a successful restore: it
    failed, had nothing to load, or was sent nothing. */
  ghost predicate Dud(done: seq<Id>, s: State, id: Id) {
    id !in done &&
    exists k :: 0 <= k < |s.clients| && s.clients[k].id == id && s.clients[k].restored && s.clients[k].pending == 0
  }

  /** No client that still waits depends on a dud, directly or not. */
  ghost predicate Unblocked(b: map<Id, Client>, done: seq<Id>, s: State) {
    forall j, u :: 0 <= j < |s.lost| && Reaches(DepsOf(b), s.lost[j].id, u) ==> !Dud(done, s, u)
  }

  lemma DepsEdge(b: map<Id, Client>, a: Id, d: Id)
    ensures Edge(DepsOf(b), a, d) <==> a in b && d in b[a].deps
  {
  }

  ghost predicate DepsClosed(b: map<Id, Client>) {
    forall id <- b :: forall d <- b[id].deps :: d in b
  }

  /** Whoever waits, waits (directly or not) for a client that is under way or for a dud. */
  lemma {:induction false} WaitsForSomebody(b: map<Id, Client>, done: seq<Id>, s: State, j: nat) returns (u: Id)
    requires Placed(b, done, s) && Acyclic(DepsOf(b)) && DepsClosed(b)
    requires j < |s.lost| && s.lost[j].unsat != []
    ensures Reaches(DepsOf(b), s.lost[j].id, u) && (UnderWay(s, u) || Dud(done, s, u))
    decreases ReachSet(DepsOf(b), s.lost[j].id)
  {
    var c, g := s.lost[j], DepsOf(b);
    assert LostGood(b, s.forks, done, Count(s.out, Launch(c.id)), c);
    var d := c.unsat[0];
    assert d in c.unsat && d in b[c.id].deps && d !in done;
    DepsEdge(b, c.id, d);
    EdgeReaches(g, c.id, d);
    var k := Located(b, done, s, d);
    u := d;
    if k >= |s.clients| && s.lost[k - |s.clients|].unsat != [] {
      ReachSetShrinks(g, c.id, d);
      u := WaitsForSomebody(b, done, s, k - |s.clients|);
      ReachesTransitive(g, c.id, d, u);
    }
  }

  // ------------------------------------------------------------------ when a project can be loaded

  /** No client of the project can block the load by its own nature: every client can be
    forked, none has an unreadable or empty store, and nobody depends on a client that has
    nothing to load. */
  ghost predicate Startable(b: map<Id, Client>, forks: map<Id, nat>) {
    forall id <- b ::
      ForkPid(forks, id) != 0 && !Silent(b[id]) && forall d <- b[id].deps :: d in b && !Stateless(b[d])
  }

  /** Reports come in dependency order, so a project all of whose dependencies have reported
    has no dependency cycle. */
  lemma {:induction false} ReachesEarlier(b: map<Id, Client>, done: seq<Id>, p: seq<Id>, i: nat)
    requires Ordered(b, done) && IsPath(DepsOf(b), p) && i < |done| && done[i] == p[0]
    ensures p[|p| - 1] in done[..i]
    decreases |p|
  {
    DepsEdge(b, p[0], p[1]);
    assert Edge(DepsOf(b), p[0], p[1]);
    assert p[1] in done[..i];
    if |p| > 2 {
      var j :| 0 <= j < i && done[j] == p[1];
      TailIsPath(DepsOf(b), p);
      ReachesEarlier(b, done, p[1..], j);
      assert done[..j] <= done[..i];
    }
  }

  lemma OrderedIsAcyclic(b: map<Id, Client>, forks: map<Id, nat>, done: seq<Id>)
    requires AllUp(b, forks, done)
    ensures Acyclic(DepsOf(b))
  {
    forall x
      ensures !Reaches(DepsOf(b), x, x)
    {
      if Reaches(DepsOf(b), x, x) {
        var p :| IsPath(DepsOf(b), p) && p[0] == x && p[|p| - 1] == x;
        var n := |p| - 2;
        assert Edge(DepsOf(b), p[n], p[n + 1]);
        DepsEdge(b, p[n], x);
        var i :| 0 <= i < |done| && done[i] == x;
        ReachesEarlier(b, done, p, i);
        assert false;
      }
    }
  }

  /** A project without clients is never announced as loaded, and blocks every later save. */
  lemma EmptyStep(s: State, step: Step)
    requires Inv(s) && s.task == Loading && Placed(map[], [], s) && Allowed(s, step)
    ensures Next(s, step).task == Loading && Restores(s, step) == []
  {
    forall k | 0 <= k < |s.clients|
      ensures s.clients[k].pending == 0
    {
      assert RunningGood(map[], s.forks, [], Count(s.out, Launch(s.clients[k].id)), s.clients[k]);
    }
    assert |s.lost| > 0 ==> SameClient(map[], s.lost[0]);
  }

  lemma {:induction false} EmptyNeverLoads(p: State, steps: seq<Step>)
    requires Parsed(p) && p.lost == [] && AllowedRun(Restore(p), steps)
    ensures Run(Restore(p), steps).task == Loading && Done(Restore(p), steps) == []
    ensures Next(Run(Restore(p), steps), SaveProject) == Run(Restore(p), steps)
  {
    hide Restores, Placed, Inv;
    assert Roster(p) == map[];
    if steps == [] {
      RestoreFields(p);
    } else {
      var init := steps[..|steps| - 1];
      EmptyNeverLoads(p, init);
      RestoreRun(p, init);
      hide Next;
      EmptyStep(Run(Restore(p), init), steps[|steps| - 1]);
    }
    assert Next(Run(Restore(p), steps), SaveProject) == Save(Run(Restore(p), steps));
  }

  // ------------------------------------------------------------------ constructing a successful run

  lemma {:induction false} RunCons(s: State, step: Step, rest: seq<Step>)
    ensures Run(s, [step] + rest) == Run(Next(s, step), rest)
    ensures AllowedRun(s, [step] + rest) <==> Allowed(s, step) && AllowedRun(Next(s, step), rest)
    ensures NoFailures(s, [step] + rest) <==> !Fails(s, step) && NoFailures(Next(s, step), rest)
  {
    hide Next, Allowed, Fails;
    var all := [step] + rest;
    if rest == [] {
      assert all[..0] == [] && all[0] == step;
      assert Run(s, all) == Next(Run(s, all[..0]), step);
    } else {
      RunCons(s, step, rest[..|rest| - 1]);
      assert all[..|all| - 1] == [step] + rest[..|rest| - 1];
    }
  }

  lemma {:induction false} SomeFreshName(cs: seq<Client>) returns (name: nat)
    ensures FreshName(cs, name) && forall k :: 0 <= k < |cs| ==> cs[k].name < name
  {
    if cs == [] {
      name := 0;
    } else {
      var n := SomeFreshName(cs[1..]);
      name := if n > cs[0].name then n else cs[0].name + 1;
      assert forall k :: 1 <= k < |cs| ==> cs[k] == cs[1..][k - 1];
    }
  }

  /** No client has failed to restore so far. */
  ghost predicate Healthy(b: map<Id, Client>, done: seq<Id>, s: State) {
    forall k :: 0 <= k < |s.clients| && s.clients[k].restored && s.clients[k].pending == 0 ==>
      s.clients[k].id in done || !Loads(s.clients[k])
  }

  /** The step delivers an accepted report of a failed restore. */
  predicate Fails(s: State, step: Step) {
    match step
    case Report(name, task, percentage, _) =>
      var i := IndexByName(s.clients, name);
      i < |s.clients| && Accepts(s.clients[i], task) && s.clients[i].kind.IsRestore() && percentage == 0
    case Commit(name, task, payload, _) =>
      var i := IndexByName(s.clients, name);
      i < |s.clients| && Accepts(s.clients[i], task) && s.clients[i].kind.IsRestore() && s.clients[i].hasStore
      && payload == Configs(false)
    case Connect(_, _, _, _) => false
    case SaveProject => false
  }

  /** No restore fails during the run. */
  predicate NoFailures(s: State, steps: seq<Step>) {
    steps == [] ||
    (var init := steps[..|steps| - 1];
     NoFailures(s, init) && !Fails(Run(s, init), steps[|steps| - 1]))
  }

  lemma CompletionHealthy(b: map<Id, Client>, done: seq<Id>, s: State, i: nat, diskOk: bool)
    requires Inv(s) && s.task == Loading && Healthy(b, done, s) && i < |s.clients| && s.clients[i].pending != 0
    ensures Healthy(b, done + [s.clients[i].id], TaskCompleted(s, i, true, diskOk))
  {
    hide TaskCompleted, Inv;
    ReportFields(s, i, true, diskOk);
  }

  lemma ProgressHealthy(b: map<Id, Client>, done: seq<Id>, s: State, i: nat, percentage: nat)
    requires Healthy(b, done, s) && i < |s.clients|
    ensures Healthy(b, done, ClientProgress(s, i, percentage))
  {
  }

  lemma PrependHealthy(b: map<Id, Client>, done: seq<Id>, s: State, d: Client, t: State)
    requires Healthy(b, done, s) && t.clients == [d] + s.clients
    requires d.restored && d.pending == 0 ==> !Loads(d)
    ensures Healthy(b, done, t)
  {
  }

  lemma ConnectHealthy(b: map<Id, Client>, done: seq<Id>, s: State, pid: nat, name: nat, id: Id, caps: Caps)
    requires Inv(s) && s.task == Loading && Healthy(b, done, s)
    ensures Healthy(b, done, AddClient(s, pid, name, id, caps))
  {
    hide Inv, Healthy, Resume;
    var j := IndexByPid(s.lost, pid);
    if pid != 0 && j < |s.lost| {
      var d := ResumeFields(s, j, name);
      PrependHealthy(b, done, s, d, Resume(s, j, name));
    } else {
      PrependHealthy(b, done, s, NewClient(id, caps, pid, name), AddClient(s, pid, name, id, caps));
    }
  }

  /** Without a failing report nobody becomes unhealthy. */
  lemma NextHealthy(b: map<Id, Client>, done: seq<Id>, s: State, step: Step)
    requires Inv(s) && s.task == Loading && Healthy(b, done, s) && Allowed(s, step) && !Fails(s, step)
    ensures Healthy(b, done + Restores(s, step), Next(s, step))
  {
    assert done + [] == done;
    hide Inv, Healthy, TaskCompleted, ClientProgress, AddClient;
    match step
    case SaveProject =>
    case Connect(pid, name, id, caps) => ConnectHealthy(b, done, s, pid, name, id, caps);
    case Report(name, task, percentage, diskOk) =>
      var i := IndexByName(s.clients, name);
      if i < |s.clients| && Accepts(s.clients[i], task) {
        KindWhileLoading(s, i);
        if percentage == 255 {
          CompletionHealthy(b, done, s, i, diskOk);
        } else if percentage > s.clients[i].progress {
          ProgressHealthy(b, done, s, i, if percentage > 99 then 99 else percentage);
        }
      }
    case Commit(name, task, payload, diskOk) =>
      var i := IndexByName(s.clients, name);
      if i < |s.clients| && Accepts(s.clients[i], task) && s.clients[i].hasStore && payload.Configs? {
        KindWhileLoading(s, i);
        CompletionHealthy(b, done, s, i, diskOk);
      }
  }

  /** A load that has not ended waits for somebody. */
  lemma PendingStays(s: State, step: Step)
    requires Inv(s) && s.task == Loading && s.pending >= 1 && Allowed(s, step)
    ensures Next(s, step).task == Loading ==> Next(s, step).pending >= 1
  {
    hide Resume, TaskCompleted, Inv;
    match step
    case SaveProject =>
    case Connect(pid, name, id, caps) =>
      var j := IndexByPid(s.lost, pid);
      if pid != 0 && j < |s.lost| { ResumePending(s, j, name); }
    case Report(name, task, percentage, diskOk) =>
      var i := IndexByName(s.clients, name);
      if i < |s.clients| && Accepts(s.clients[i], task) { CompletionPending(s, i, percentage == 255, diskOk); }
    case Commit(name, task, payload, diskOk) =>
      var i := IndexByName(s.clients, name);
      if i < |s.clients| && Accepts(s.clients[i], task) && payload.Configs? {
        CompletionPending(s, i, payload.valid, diskOk);
      }
  }

  lemma CompletionPending(s: State, i: nat, ok: bool, diskOk: bool)
    requires Inv(s) && i < |s.clients| && s.clients[i].pending != 0 && s.task == Loading
    ensures var t := TaskCompleted(s, i, ok, diskOk); t.task == Loading ==> t.pending >= 1
  {
    hide TaskCompleted, TaskEffect, Inv;
    var d := CompletedFields(s, i, ok, diskOk);
  }

  /** What a lost client still has to do: to connect, and to report if it has something to load. */
  function ToDo(c: Client): nat {
    if Loads(c) then 2 else 1
  }

  function Remaining(s: State): nat {
    Sum(ToDo, s.lost) + Sum(Owes, s.clients)
  }

  lemma {:induction false} SumSame(f: Client -> nat, a: seq<Client>, b: seq<Client>)
    requires |a| == |b| && forall k :: 0 <= k < |a| ==> f(a[k]) == f(b[k])
    ensures Sum(f, a) == Sum(f, b)
  {
    if a != [] {
      assert forall k :: 0 <= k < |a[1..]| ==> a[1..][k] == a[k + 1] && b[1..][k] == b[k + 1];
      SumSame(f, a[1..], b[1..]);
    }
  }

  lemma {:induction false} SumWithout(f: Client -> nat, cs: seq<Client>, j: nat)
    requires j < |cs|
    ensures Sum(f, cs[..j] + cs[j + 1..]) + f(cs[j]) == Sum(f, cs)
  {
    if j == 0 {
      assert cs[..0] + cs[1..] == cs[1..];
    } else {
      assert (cs[..j] + cs[j + 1..])[1..] == cs[1..][..j - 1] + cs[1..][j..];
      SumWithout(f, cs[1..], j - 1);
    }
  }

  /** Waiting for one client less leaves everybody as much to do. */
  lemma SatisfyRemains(cs: seq<Client>, id: Id, forks: map<Id, nat>)
    ensures Sum(ToDo, SatisfyAll(cs, id, forks)) == Sum(ToDo, cs)
  {
    SatisfyAllAt(cs, id, forks);
    hide SatisfyAll, Sum;
    SumSame(ToDo, SatisfyAll(cs, id, forks), cs);
  }

  lemma ReportAllowed(s: State, i: nat)
    requires Inv(s) && s.task == Loading && i < |s.clients| && s.clients[i].pending != 0
    ensures var step := Report(s.clients[i].name, s.clients[i].pending, 255, true);
            && Allowed(s, step) && !Fails(s, step) && Restores(s, step) == [s.clients[i].id]
            && Next(s, step) == TaskCompleted(s, i, true, true)
  {
    InvNames(s);
    assert IndexByName(s.clients, s.clients[i].name) == i;
    KindWhileLoading(s, i);
    hide TaskCompleted, Inv;
  }

  lemma ReportUnblocked(b: map<Id, Client>, done: seq<Id>, s: State, i: nat)
    requires Inv(s) && s.task == Loading && Unblocked(b, done, s)
    requires i < |s.clients| && s.clients[i].pending != 0
    ensures Unblocked(b, done + [s.clients[i].id], TaskCompleted(s, i, true, true))
  {
    hide TaskCompleted, Inv, Reaches, DepsOf;
    ReportFields(s, i, true, true);
    SatisfyAllAt(s.lost, s.clients[i].id, s.forks);
    var t, done' := TaskCompleted(s, i, true, true), done + [s.clients[i].id];
    forall j, u | 0 <= j < |t.lost| && Reaches(DepsOf(b), t.lost[j].id, u)
      ensures !Dud(done', t, u)
    {
      assert !Dud(done, s, u);
    }
  }

  lemma ReportShrinks(s: State, i: nat)
    requires Inv(s) && s.task == Loading && i < |s.clients| && s.clients[i].pending != 0
    ensures var t := TaskCompleted(s, i, true, true);
            t.task == Loading ==> Remaining(t) < Remaining(s) && t.pending >= 1
  {
    hide TaskCompleted, TaskEffect, Inv;
    var c := s.clients[i];
    ReportFields(s, i, true, true);
    SatisfyRemains(s.lost, c.id, s.forks);
    SumUpdate(Owes, s.clients, i, c.(pending := 0, kind := NoTask, progress := 0));
    var d := CompletedFields(s, i, true, true);
  }

  /** A client that owes a report can deliver it. */
  lemma ReportStep(b: map<Id, Client>, done: seq<Id>, s: State, i: nat) returns (step: Step)
    requires Inv(s) && s.task == Loading && Unblocked(b, done, s)
    requires i < |s.clients| && s.clients[i].pending != 0
    ensures Allowed(s, step) && !Fails(s, step) && Restores(s, step) == [s.clients[i].id]
    ensures Next(s, step).task == Loading ==>
              && Unblocked(b, done + [s.clients[i].id], Next(s, step))
              && Remaining(Next(s, step)) < Remaining(s) && Next(s, step).pending >= 1
  {
    hide TaskCompleted, Next, Inv, Allowed, Restores, Unblocked, Remaining, Fails;
    step := Report(s.clients[i].name, s.clients[i].pending, 255, true);
    ReportAllowed(s, i);
    ReportUnblocked(b, done, s, i);
    ReportShrinks(s, i);
  }

  lemma ConnectAllowed(s: State, j: nat, name: nat) returns (step: Step, i: nat)
    requires j < |s.lost| && s.lost[j].pid != 0 && FreshName(s.clients, name)
    ensures Allowed(s, step) && !Fails(s, step) && Restores(s, step) == []
    ensures i < |s.lost| && s.lost[i].pid != 0 && Next(s, step) == Resume(s, i, name)
  {
    hide Resume;
    step := Connect(s.lost[j].pid, name, 0, s.lost[j].caps);
    i := IndexByPid(s.lost, s.lost[j].pid);
  }

  lemma ConnectUnblocked(b: map<Id, Client>, done: seq<Id>, s: State, j: nat, name: nat)
    requires Inv(s) && s.task == Loading && Unblocked(b, done, s) && Startable(b, s.forks)
    requires j < |s.lost| && SameClient(b, s.lost[j])
    ensures Unblocked(b, done, Resume(s, j, name))
  {
    hide Resume, Inv, Reaches;
    var t := Resume(s, j, name);
    var d := ResumeFields(s, j, name);
    forall k, u | 0 <= k < |t.lost| && Reaches(DepsOf(b), t.lost[k].id, u)
      ensures !Dud(done, t, u)
    {
      assert t.lost[k] == s.lost[if k < j then k else k + 1];
      assert !Dud(done, s, u);
      DependedOn(b, s.forks, t.lost[k].id, u);
      assert forall i :: 1 <= i < |t.clients| ==> t.clients[i] == s.clients[i - 1];
    }
  }

  /** Whoever is depended on has something to load, in a startable project. */
  lemma DependedOn(b: map<Id, Client>, forks: map<Id, nat>, a: Id, u: Id)
    requires Startable(b, forks) && Reaches(DepsOf(b), a, u)
    ensures u in b && Loads(b[u])
  {
    var x := LastEdge(DepsOf(b), a, u);
    DepsEdge(b, x, u);
  }

  lemma LastEdge(g: Deps, a: Id, u: Id) returns (x: Id)
    requires Reaches(g, a, u)
    ensures Edge(g, x, u) && (x == a || Reaches(g, a, x))
  {
    var p :| IsPath(g, p) && p[0] == a && p[|p| - 1] == u;
    var n := |p| - 2;
    x := p[n];
    assert Edge(g, p[n], p[n + 1]);
    if n > 0 {
      var q := p[..n + 1];
      assert forall i :: 0 <= i < n ==> Edge(g, p[i], p[i + 1]);
      assert IsPath(g, q) && q[0] == a && q[|q| - 1] == x;
    }
  }

  lemma ConnectShrinks(s: State, j: nat, name: nat)
    requires Inv(s) && s.task == Loading && j < |s.lost| && s.pending >= 1
    ensures var t := Resume(s, j, name);
            t.task == Loading ==> Remaining(t) < Remaining(s) && t.pending >= 1
  {
    hide Resume, Inv;
    var d := ResumeFields(s, j, name);
    SumPrepend(Owes, d, s.clients);
    SumWithout(ToDo, s.lost, j);
    ResumePending(s, j, name);
  }

  /** A launched client can connect. */
  lemma ConnectStep(b: map<Id, Client>, done: seq<Id>, s: State, j: nat) returns (step: Step)
    requires Inv(s) && s.task == Loading && AllLostGood(b, done, s) && Unblocked(b, done, s) && Startable(b, s.forks)
    requires j < |s.lost| && s.lost[j].unsat == [] && s.pending >= 1
    ensures Allowed(s, step) && !Fails(s, step) && Restores(s, step) == []
    ensures Next(s, step).task == Loading ==>
              && Unblocked(b, done, Next(s, step))
              && Remaining(Next(s, step)) < Remaining(s) && Next(s, step).pending >= 1
  {
    hide Next, Inv, Allowed, Unblocked, Restores, Resume, Fails, Remaining;
    assert LostGood(b, s.forks, done, Count(s.out, Launch(s.lost[j].id)), s.lost[j]);
    var name := SomeFreshName(s.clients);
    var i;
    step, i := ConnectAllowed(s, j, name);
    assert LostGood(b, s.forks, done, Count(s.out, Launch(s.lost[i].id)), s.lost[i]);
    ConnectUnblocked(b, done, s, i, name);
    ConnectShrinks(s, i, name);
  }

  lemma ResumePending(s: State, j: nat, name: nat)
    requires Inv(s) && s.task == Loading && j < |s.lost| && s.pending >= 1
    ensures Resume(s, j, name).task == Loading ==> Resume(s, j, name).pending >= 1
  {
    if Stateless(s.lost[j]) { StatelessResumeFields(s, j, name); }
  }

  /** Deadlock freedom: while the load of a startable project goes on and nobody waits for a client that
    will never report, some launched client still has a step to take. */
  lemma SomebodyCanStep(b: map<Id, Client>, done: seq<Id>, s: State) returns (connect: bool, k: nat)
    requires Inv(s) && s.task == Loading && s.pending >= 1 && Placed(b, done, s) && Unblocked(b, done, s)
    requires Acyclic(DepsOf(b)) && Startable(b, s.forks)
    ensures connect ==> k < |s.lost| && s.lost[k].unsat == []
    ensures !connect ==> k < |s.clients| && s.clients[k].restored && s.clients[k].pending != 0
  {
    if i :| 0 <= i < |s.clients| && s.clients[i].pending != 0 {
      assert RunningGood(b, s.forks, done, Count(s.out, Launch(s.clients[i].id)), s.clients[i]);
      return false, i;
    }
    if s.lost == [] {
      NobodyOwes(b, done, s);
      assert false;
    } else if s.lost[0].unsat == [] {
      return true, 0;
    } else {
      var u := WaitsForSomebody(b, done, s, 0);
      var i :| 0 <= i < |s.lost| && s.lost[i].id == u && s.lost[i].unsat == [];
      return true, i;
    }
  }

  /** What a run of a project with clients keeps, `done` being the successful reports so far: a load
    that goes on waits for somebody and nobody has failed; when it has ended, everybody who had
    something to load has reported success. */
  ghost predicate WellRun(b: map<Id, Client>, done: seq<Id>, s: State) {
    if s.task == Loading then s.pending >= 1 && Healthy(b, done, s)
    else forall id <- b :: Loads(b[id]) ==> id in done
  }

  lemma FinishedIsLoaded(b: map<Id, Client>, done: seq<Id>, t: State)
    requires Placed(b, done, t) && Healthy(b, done, t) && t.lost == [] && Sum(OwesLoading, t.clients) == 0
    ensures forall id <- b :: Loads(b[id]) ==> id in done
  {
    SumZeroEach(OwesLoading, t.clients);
    forall id | id in b && Loads(b[id])
      ensures id in done
    {
      var k := Located(b, done, t, id);
      assert OwesLoading(t.clients[k]) == 0;
    }
  }

  lemma NextWell(b: map<Id, Client>, forks: map<Id, nat>, done: seq<Id>, s: State, step: Step)
    requires RunGood(b, forks, done, s) && Allowed(s, step) && WellRun(b, done, s) && !Fails(s, step)
    ensures WellRun(b, done + Restores(s, step), Next(s, step))
  {
    hide Next, Inv, Placed, AllUp, Restores, Allowed, Healthy, LaunchSafe, Fails, UpAndRunning;
    var t, done' := Next(s, step), done + Restores(s, step);
    if s.task == Loading {
      NextHealthy(b, done, s, step);
      PendingStays(s, step);
      if t.task != Loading {
        NextPlaced(b, done, s, step);
        FinishOwesNothing(s, step);
        FinishedIsLoaded(b, done', t);
      }
    } else {
      SettledStep(s, step);
      assert done' == done && t.task != Loading;
    }
  }

  /** Over every run without failing reports the load stays healthy, and when it has ended everybody
    who had something to load has reported success. */
  lemma {:induction false} HealthyRun(p: State, steps: seq<Step>)
    requires Parsed(p) && p.lost != [] && AllowedRun(Restore(p), steps) && NoFailures(Restore(p), steps)
    ensures WellRun(Roster(p), Done(Restore(p), steps), Run(Restore(p), steps))
  {
    hide Next, Restores, Restore, Roster, Fails, Allowed;
    if steps == [] {
      RestoreFields(p);
    } else {
      var init := steps[..|steps| - 1];
      HealthyRun(p, init);
      RestoreRun(p, init);
      hide RunGood, WellRun;
      NextWell(Roster(p), p.forks, Done(Restore(p), init), Run(Restore(p), init), steps[|steps| - 1]);
    }
  }

  /** Freedom from deadlock, over every run without failing reports: as long as the load of an
    acyclic, startable project goes on, some launched client has yet to connect or to report. */
  lemma NoDeadlock(p: State, steps: seq<Step>) returns (connect: bool, k: nat)
    requires Parsed(p) && p.lost != [] && AllowedRun(Restore(p), steps) && NoFailures(Restore(p), steps)
    requires Acyclic(DepsOf(Roster(p))) && Startable(Roster(p), p.forks)
    requires Run(Restore(p), steps).task == Loading
    ensures var s := Run(Restore(p), steps);
            if connect then k < |s.lost| && s.lost[k].unsat == [] && Count(s.out, Launch(s.lost[k].id)) == 1
            else k < |s.clients| && s.clients[k].restored && s.clients[k].pending != 0
  {
    hide Roster, Restore, Inv, Placed, Startable, Acyclic, Healthy, LaunchSafe, AllUp;
    var s, done := Run(Restore(p), steps), Done(Restore(p), steps);
    RestoreRun(p, steps);
    HealthyRun(p, steps);
    HealthyIsUnblocked(Roster(p), done, s);
    connect, k := SomebodyCanStep(Roster(p), done, s);
    if connect { LaunchedOnce(Roster(p), done, s, k); }
  }

  lemma LaunchedOnce(b: map<Id, Client>, done: seq<Id>, s: State, k: nat)
    requires Placed(b, done, s) && k < |s.lost| && s.lost[k].unsat == []
    ensures Count(s.out, Launch(s.lost[k].id)) == 1
  {
    assert LostGood(b, s.forks, done, Count(s.out, Launch(s.lost[k].id)), s.lost[k]);
  }

  lemma NobodyOwes(b: map<Id, Client>, done: seq<Id>, s: State)
    requires Inv(s) && s.task == Loading && s.lost == [] && AllRunningGood(b, done, s) && Startable(b, s.forks)
    requires forall k :: 0 <= k < |s.clients| ==> s.clients[k].pending == 0
    ensures s.pending == 0
  {
    forall c <- s.clients
      ensures OwesLoading(c) == 0
    {
      var k :| 0 <= k < |s.clients| && s.clients[k] == c;
      assert RunningGood(b, s.forks, done, Count(s.out, Launch(c.id)), s.clients[k]);
    }
    SumZero(OwesLoading, s.clients);
  }

  /** In a healthy run nobody waits for a dud. */
  lemma NoDudInTheWay(b: map<Id, Client>, done: seq<Id>, s: State, a: Id, u: Id)
    requires AllRunningGood(b, done, s) && Healthy(b, done, s) && Startable(b, s.forks)
    requires Reaches(DepsOf(b), a, u)
    ensures !Dud(done, s, u)
  {
    var p :| IsPath(DepsOf(b), p) && p[0] == a && p[|p| - 1] == u;
    var n := |p| - 2;
    assert Edge(DepsOf(b), p[n], p[n + 1]);
    DepsEdge(b, p[n], u);
    forall k | 0 <= k < |s.clients| && s.clients[k].id == u && s.clients[k].restored && s.clients[k].pending == 0
      ensures u in done
    {
      assert RunningGood(b, s.forks, done, Count(s.out, Launch(u)), s.clients[k]);
    }
  }

  lemma HealthyIsUnblocked(b: map<Id, Client>, done: seq<Id>, s: State)
    requires Placed(b, done, s) && Healthy(b, done, s) && Startable(b, s.forks)
    ensures Unblocked(b, done, s)
  {
    hide Reaches, DepsOf, Startable, Healthy, RunningGood, LostGood;
    forall j, u | 0 <= j < |s.lost| && Reaches(DepsOf(b), s.lost[j].id, u)
      ensures !Dud(done, s, u)
    {
      NoDudInTheWay(b, done, s, s.lost[j].id, u);
    }
  }

  /** A load can be brought to its end without a further failure, from every state of a run in which nobody
    waits for a client that will never report; even if others have failed. */
  lemma {:induction false} CanFinish(b: map<Id, Client>, forks: map<Id, nat>, done: seq<Id>, s: State)
    returns (steps: seq<Step>)
    requires RunGood(b, forks, done, s) && (s.task == Loading ==> Unblocked(b, done, s) && s.pending >= 1)
    requires Acyclic(DepsOf(b)) && Startable(b, forks)
    ensures AllowedRun(s, steps) && NoFailures(s, steps) && Run(s, steps).task != Loading
    decreases s.task == Loading, Remaining(s)
  {
    hide Next, Inv, Allowed, Placed, LaunchSafe, AllUp, Restores, Fails;
    if s.task != Loading { return []; }
    var connect, k := SomebodyCanStep(b, done, s);
    var step;
    if connect {
      LostOfPlaced(b, done, s);
      step := ConnectStep(b, done, s, k);
    } else {
      step := ReportStep(b, done, s, k);
    }
    NextGood(b, forks, done, s, step);
    assert done + [] == done;
    hide RunGood;
    var rest := CanFinish(b, forks, done + Restores(s, step), Next(s, step));
    RunCons(s, step, rest);
    steps := [step] + rest;
  }

  lemma LostOfPlaced(b: map<Id, Client>, done: seq<Id>, s: State)
    requires Placed(b, done, s)
    ensures AllLostGood(b, done, s)
  {
  }

  ghost predicate CanBeLoaded(p: State) {
    exists steps :: AllowedRun(Restore(p), steps) && Count(Run(Restore(p), steps).out, ProjectLoaded) == 1
  }

  lemma UpIsStartable(b: map<Id, Client>, forks: map<Id, nat>, done: seq<Id>)
    requires AllUp(b, forks, done)
    ensures Startable(b, forks)
  {
  }

  lemma LoadedOnlyIf(p: State, steps: seq<Step>)
    requires Parsed(p) && AllowedRun(Restore(p), steps) && Count(Run(Restore(p), steps).out, ProjectLoaded) == 1
    ensures p.lost != [] && Acyclic(DepsOf(Roster(p))) && Startable(Roster(p), p.forks)
  {
    hide Inv, Placed, Roster, Restore, LaunchSafe, AllUp, Startable;
    RestoreRun(p, steps);
    var done := Done(Restore(p), steps);
    OrderedIsAcyclic(Roster(p), p.forks, done);
    UpIsStartable(Roster(p), p.forks, done);
    if p.lost == [] { EmptyNeverLoads(p, steps); }
  }

  /** A restored project can reach ProjectLoaded exactly when it has clients, its surviving
    dependencies have no cycle, every client can be forked, no client's saved data set is
    missing or empty, and nobody depends on a client that has nothing to load. */
  lemma LoadedExactlyWhen(p: State)
    requires Parsed(p)
    ensures CanBeLoaded(p) <==> p.lost != [] && Acyclic(DepsOf(Roster(p))) && Startable(Roster(p), p.forks)
  {
    hide Inv, Placed, Roster, Startable;
    if CanBeLoaded(p) {
      var steps :| AllowedRun(Restore(p), steps) && Count(Run(Restore(p), steps).out, ProjectLoaded) == 1;
      LoadedOnlyIf(p, steps);
    }
    if p.lost != [] && Acyclic(DepsOf(Roster(p))) && Startable(Roster(p), p.forks) {
      RestoreRun(p, []);
      RestoreFields(p);
      assert Unblocked(Roster(p), [], Restore(p));
      hide Restore, RunGood;
      var steps := CanFinish(Roster(p), p.forks, [], Restore(p));
      RestoreRun(p, steps);
      FinishedCount(Roster(p), p.forks, Done(Restore(p), steps), Run(Restore(p), steps));
    }
  }

  lemma FinishedCount(b: map<Id, Client>, forks: map<Id, nat>, done: seq<Id>, s: State)
    requires RunGood(b, forks, done, s) && s.task != Loading
    ensures Count(s.out, ProjectLoaded) == 1
  {
  }

  // ------------------------------------------------------------------ loads in which a restore has failed

  lemma CompletionDud(done: seq<Id>, s: State, i: nat, ok: bool, diskOk: bool, u: Id)
    requires Inv(s) && s.task == Loading && i < |s.clients| && s.clients[i].pending != 0
    requires DistinctIds(s.clients) && Dud(done, s, u)
    ensures Dud(done, TaskCompleted(s, i, ok, diskOk), u) && s.clients[i].id != u
  {
    hide TaskCompleted, Inv;
    ReportFields(s, i, ok, diskOk);
    var k :| 0 <= k < |s.clients| && s.clients[k].id == u && s.clients[k].restored && s.clients[k].pending == 0;
    assert TaskCompleted(s, i, ok, diskOk).clients[k] == s.clients[k];
  }

  lemma ProgressDud(done: seq<Id>, s: State, i: nat, percentage: nat, u: Id)
    requires i < |s.clients| && Dud(done, s, u)
    ensures Dud(done, ClientProgress(s, i, percentage), u)
  {
    var t := ClientProgress(s, i, percentage);
    var k :| 0 <= k < |s.clients| && s.clients[k].id == u && s.clients[k].restored && s.clients[k].pending == 0;
    assert t.clients[k] == s.clients[k].(progress := t.clients[k].progress);
  }

  lemma PrependDud(done: seq<Id>, s: State, d: Client, t: State, u: Id)
    requires t.clients == [d] + s.clients && Dud(done, s, u)
    ensures Dud(done, t, u)
  {
    var k :| 0 <= k < |s.clients| && s.clients[k].id == u && s.clients[k].restored && s.clients[k].pending == 0;
    assert t.clients[k + 1] == s.clients[k];
  }

  lemma ConnectDud(done: seq<Id>, s: State, pid: nat, name: nat, id: Id, caps: Caps, u: Id)
    requires Inv(s) && s.task == Loading && Dud(done, s, u)
    ensures Dud(done, AddClient(s, pid, name, id, caps), u)
  {
    hide Inv, Dud, Resume;
    var j := IndexByPid(s.lost, pid);
    if pid != 0 && j < |s.lost| {
      var d := ResumeFields(s, j, name);
      PrependDud(done, s, d, Resume(s, j, name), u);
    } else {
      PrependDud(done, s, NewClient(id, caps, pid, name), AddClient(s, pid, name, id, caps), u);
    }
  }

  lemma DoneDud(done: seq<Id>, s: State, u: Id, x: Id)
    requires Dud(done, s, u) && x != u
    ensures Dud(done + [x], s, u)
  {
  }

  /** Who has failed, or was never asked, does not report any more while the load goes on. */
  lemma NextDud(done: seq<Id>, s: State, step: Step, u: Id)
    requires Inv(s) && s.task == Loading && DistinctIds(s.clients) && Dud(done, s, u) && Allowed(s, step)
    ensures Dud(done + Restores(s, step), Next(s, step), u)
  {
    hide Inv, Dud, TaskCompleted, ClientProgress, AddClient, DistinctIds, Allowed;
    assert done + [] == done;
    match step
    case SaveProject =>
    case Connect(pid, name, id, caps) => ConnectDud(done, s, pid, name, id, caps, u);
    case Report(name, task, percentage, diskOk) =>
      var i := IndexByName(s.clients, name);
      if i < |s.clients| && Accepts(s.clients[i], task) {
        CompletionDud(done, s, i, percentage == 255, diskOk, u);
        DoneDud(done, TaskCompleted(s, i, percentage == 255, diskOk), u, s.clients[i].id);
        ProgressDud(done, s, i, if percentage > 99 then 99 else percentage, u);
      }
    case Commit(name, task, payload, diskOk) =>
      var i := IndexByName(s.clients, name);
      if i < |s.clients| && Accepts(s.clients[i], task) && s.clients[i].hasStore && payload.Configs? {
        CompletionDud(done, s, i, payload.valid, diskOk, u);
        DoneDud(done, TaskCompleted(s, i, payload.valid, diskOk), u, s.clients[i].id);
      }
  }

  lemma ClientsDistinct(cs: seq<Client>, ls: seq<Client>)
    requires DistinctIds(cs + ls)
    ensures DistinctIds(cs)
  {
    assert forall k :: 0 <= k < |cs| ==> (cs + ls)[k] == cs[k];
  }

  /** A client of the project depends on this one. */
  ghost predicate Needed(b: map<Id, Client>, u: Id) {
    exists x :: x in b && u in b[x].deps
  }

  lemma UpHasReported(b: map<Id, Client>, forks: map<Id, nat>, done: seq<Id>, u: Id)
    requires AllUp(b, forks, done) && Needed(b, u)
    ensures u in done
  {
  }

  /** As long as somebody depends on a client that will never report, the load does not end. */
  lemma {:induction false} DudStays(b: map<Id, Client>, forks: map<Id, nat>, done: seq<Id>, s: State, u: Id,
                                    steps: seq<Step>)
    requires RunGood(b, forks, done, s) && s.task == Loading && Dud(done, s, u) && Needed(b, u)
    requires AllowedRun(s, steps)
    ensures var t, done' := Run(s, steps), done + Done(s, steps);
            RunGood(b, forks, done', t) && t.task == Loading && Dud(done', t, u)
  {
    hide Next, Inv, Placed, AllUp, Allowed, Dud, LaunchSafe, Restores, DistinctIds, UpAndRunning, Needed;
    if steps == [] {
      assert done + [] == done;
    } else {
      var init, step := steps[..|steps| - 1], steps[|steps| - 1];
      DudStays(b, forks, done, s, u, init);
      var t, done' := Run(s, init), done + Done(s, init);
      NextGood(b, forks, done', t, step);
      assert done' + Restores(t, step) == done + Done(s, steps);
      PlacedDistinct(b, done', t);
      ClientsDistinct(t.clients, t.lost);
      NextDud(done', t, step, u);
      if Next(t, step).task != Loading {
        UpHasReported(b, forks, done + Done(s, steps), u);
        DudNotDone(done + Done(s, steps), Next(t, step), u);
        assert false;
      }
    }
  }

  lemma PlacedDistinct(b: map<Id, Client>, done: seq<Id>, s: State)
    requires Placed(b, done, s)
    ensures DistinctIds(s.clients + s.lost) && Ordered(b, done)
  {
  }

  lemma DudNotDone(done: seq<Id>, s: State, u: Id)
    requires Dud(done, s, u)
    ensures u !in done
  {
  }

  /** Whoever depends on such a client, directly or not, is never launched, and the load does not end. */
  lemma FailureHoldsUp(b: map<Id, Client>, forks: map<Id, nat>, done: seq<Id>, s: State, u: Id, x: Id,
                       steps: seq<Step>)
    requires RunGood(b, forks, done, s) && s.task == Loading && Dud(done, s, u)
    requires Reaches(DepsOf(b), x, u) && AllowedRun(s, steps)
    ensures Run(s, steps).task == Loading && Count(Run(s, steps).out, Launch(x)) == 0
  {
    hide Inv, Placed, AllUp, Dud, Reaches, UpAndRunning, Ordered, Next, Restores, Allowed, Count;
    var y := LastEdge(DepsOf(b), x, u);
    DepsEdge(b, y, u);
    assert Needed(b, u);
    DudStays(b, forks, done, s, u, steps);
    var t, done' := Run(s, steps), done + Done(s, steps);
    DudNotDone(done', t, u);
    PlacedDistinct(b, done', t);
    if Count(t.out, Launch(x)) == 1 { LaunchedOnDone(b, done', x, u); }
  }

  /** Everything a client with finished dependencies depends on has finished. */
  lemma LaunchedOnDone(b: map<Id, Client>, done: seq<Id>, x: Id, u: Id)
    requires Ordered(b, done) && x in b && (forall d <- b[x].deps :: d in done) && Reaches(DepsOf(b), x, u)
    ensures u in done
  {
    var p :| IsPath(DepsOf(b), p) && p[0] == x && p[|p| - 1] == u;
    assert Edge(DepsOf(b), p[0], p[0 + 1]);
    DepsEdge(b, x, p[1]);
    if |p| > 2 {
      var i :| 0 <= i < |done| && done[i] == p[1];
      TailIsPath(DepsOf(b), p);
      ReachesEarlier(b, done, p[1..], i);
    }
  }

  lemma CompletionMakesDud(b: map<Id, Client>, done: seq<Id>, s: State, i: nat, diskOk: bool)
    requires Inv(s) && s.task == Loading && AllRunningGood(b, done, s) && i < |s.clients| && s.clients[i].pending != 0
    ensures Dud(done, TaskCompleted(s, i, false, diskOk), s.clients[i].id)
  {
    hide TaskCompleted, Inv;
    ReportFields(s, i, false, diskOk);
    assert RunningGood(b, s.forks, done, Count(s.out, Launch(s.clients[i].id)), s.clients[i]);
    assert TaskCompleted(s, i, false, diskOk).clients[i].id == s.clients[i].id;
  }

  /** The client whose restore fails. */
  function Failing(s: State, step: Step): Id
    requires Fails(s, step)
  {
    s.clients[IndexByName(s.clients, step.name)].id
  }

  /** A client that reports failure will never report success. */
  lemma FailureMakesDud(b: map<Id, Client>, done: seq<Id>, s: State, step: Step)
    requires Inv(s) && s.task == Loading && Placed(b, done, s) && Fails(s, step)
    ensures Restores(s, step) == [] && Dud(done, Next(s, step), Failing(s, step))
  {
    hide Inv, Dud, TaskCompleted, ClientProgress, RunningGood, LostGood;
    CompletionMakesDud(b, done, s, IndexByName(s.clients, step.name), step.diskOk);
  }

  ghost predicate CanEnd(s: State) {
    exists steps :: AllowedRun(s, steps) && Run(s, steps).task != Loading
  }

  lemma {:induction false} RunStaysGood(b: map<Id, Client>, forks: map<Id, nat>, done: seq<Id>, s: State,
                                        steps: seq<Step>)
    requires RunGood(b, forks, done, s) && AllowedRun(s, steps)
    ensures RunGood(b, forks, done + Done(s, steps), Run(s, steps))
  {
    hide RunGood, Next, Restores, Allowed;
    if steps == [] {
      assert done + [] == done;
    } else {
      var init, step := steps[..|steps| - 1], steps[|steps| - 1];
      RunStaysGood(b, forks, done, s, init);
      NextGood(b, forks, done + Done(s, init), Run(s, init), step);
      assert done + Done(s, init) + Restores(Run(s, init), step) == done + Done(s, steps);
    }
  }

  /** A load that has come this far, with or without failures, can still end if and only if the project
    can be started at all and nobody still waits for a client that will never report. */
  lemma CanEndExactlyWhen(b: map<Id, Client>, forks: map<Id, nat>, done: seq<Id>, s: State)
    requires RunGood(b, forks, done, s) && s.task == Loading && s.pending >= 1
    ensures CanEnd(s) <==> Acyclic(DepsOf(b)) && Startable(b, forks) && Unblocked(b, done, s)
  {
    hide RunGood, Inv, Placed, Startable, Acyclic, Reaches, DepsOf, Dud;
    if CanEnd(s) {
      var steps :| AllowedRun(s, steps) && Run(s, steps).task != Loading;
      RunStaysGood(b, forks, done, s, steps);
      EndIsUp(b, forks, done + Done(s, steps), Run(s, steps));
      OrderedIsAcyclic(b, forks, done + Done(s, steps));
      UpIsStartable(b, forks, done + Done(s, steps));
      forall j, u | 0 <= j < |s.lost| && Reaches(DepsOf(b), s.lost[j].id, u)
        ensures !Dud(done, s, u)
      {
        if Dud(done, s, u) { FailureHoldsUp(b, forks, done, s, u, s.lost[j].id, steps); }
      }
    }
    if Acyclic(DepsOf(b)) && Startable(b, forks) && Unblocked(b, done, s) {
      var steps := CanFinish(b, forks, done, s);
    }
  }

  lemma EndIsUp(b: map<Id, Client>, forks: map<Id, nat>, done: seq<Id>, s: State)
    requires RunGood(b, forks, done, s) && s.task != Loading
    ensures AllUp(b, forks, done)
  {
  }

  // ------------------------------------------------------------------ the measure of a load

  /** The step makes a launched client connect, or ends a client's task. */
  predicate Effective(s: State, step: Step) {
    match step
    case Connect(pid, _, _, _) => pid != 0 && IndexByPid(s.lost, pid) < |s.lost|
    case Report(name, task, percentage, _) =>
      var i := IndexByName(s.clients, name);
      i < |s.clients| && Accepts(s.clients[i], task) && (percentage == 0 || percentage == 255)
    case Commit(name, task, payload, _) =>
      var i := IndexByName(s.clients, name);
      i < |s.clients| && Accepts(s.clients[i], task) && s.clients[i].hasStore && payload.Configs?
    case SaveProject => false
  }

  lemma CompletionShrinks(s: State, i: nat, ok: bool, diskOk: bool)
    requires Inv(s) && s.task == Loading && i < |s.clients| && s.clients[i].pending != 0
    ensures Remaining(TaskCompleted(s, i, ok, diskOk)) == Remaining(s) - 1
  {
    ReportFields(s, i, ok, diskOk);
    hide TaskCompleted, TaskEffect, Inv;
    SatisfyRemains(s.lost, s.clients[i].id, s.forks);
    SumUpdate(Owes, s.clients, i, s.clients[i].(pending := 0, kind := NoTask, progress := 0));
  }

  lemma ProgressRemains(s: State, i: nat, percentage: nat)
    requires i < |s.clients|
    ensures Remaining(ClientProgress(s, i, percentage)) == Remaining(s)
  {
    SumUpdate(Owes, s.clients, i, s.clients[i].(progress := percentage));
  }

  lemma ReportRemains(s: State, i: nat, percentage: nat, diskOk: bool)
    requires Inv(s) && s.task == Loading && i < |s.clients| && s.clients[i].pending != 0
    ensures Remaining(TaskProgressed(s, i, percentage, diskOk))
            == Remaining(s) - if percentage == 0 || percentage == 255 then 1 else 0
  {
    hide TaskCompleted, ClientProgress, Inv, Remaining;
    CompletionShrinks(s, i, percentage == 255, diskOk);
    ProgressRemains(s, i, if percentage > 99 then 99 else percentage);
  }

  lemma ResumeRemains(s: State, j: nat, name: nat)
    requires Inv(s) && s.task == Loading && j < |s.lost|
    ensures Remaining(Resume(s, j, name)) == Remaining(s) - 1
  {
    hide Resume, Inv;
    var d := ResumeFields(s, j, name);
    SumPrepend(Owes, d, s.clients);
    SumWithout(ToDo, s.lost, j);
  }

  /** An effective step is one less to do: a client has connected or reported. Every other step, however
    often it occurs, leaves that as it is. */
  lemma StepRemaining(s: State, step: Step)
    requires Inv(s) && s.task == Loading && Allowed(s, step)
    ensures Remaining(Next(s, step)) == Remaining(s) - if Effective(s, step) then 1 else 0
  {
    match step
    case SaveProject =>
    case Connect(pid, name, id, caps) =>
      hide Resume, Inv;
      var j := IndexByPid(s.lost, pid);
      if pid != 0 && j < |s.lost| {
        ResumeRemains(s, j, name);
      } else {
        SumPrepend(Owes, NewClient(id, caps, pid, name), s.clients);
      }
    case Report(name, task, percentage, diskOk) =>
      hide TaskProgressed, Inv, Remaining;
      var i := IndexByName(s.clients, name);
      if i < |s.clients| && Accepts(s.clients[i], task) { ReportRemains(s, i, percentage, diskOk); }
    case Commit(name, task, payload, diskOk) =>
      hide TaskCompleted, Inv, Remaining;
      var i := IndexByName(s.clients, name);
      if i < |s.clients| && Accepts(s.clients[i], task) && payload.Configs? {
        CompletionShrinks(s, i, payload.valid, diskOk);
      }
  }

  /** The number of effective steps while a run was loading. */
  function EffectiveCount(s: State, steps: seq<Step>): nat {
    if steps == [] then 0
    else
      var init := steps[..|steps| - 1];
      var t := Run(s, init);
      EffectiveCount(s, init) + if t.task == Loading && Effective(t, steps[|steps| - 1]) then 1 else 0
  }

  lemma {:induction false} LoadingBefore(p: State, steps: seq<Step>)
    requires Parsed(p) && steps != [] && AllowedRun(Restore(p), steps)
    requires Run(Restore(p), steps).task == Loading
    ensures Run(Restore(p), steps[..|steps| - 1]).task == Loading
  {
    var init := steps[..|steps| - 1];
    RestoreRun(p, init);
    hide Next, Restore, Inv, Placed, AllUp, LaunchSafe;
    if Run(Restore(p), init).task != Loading { SettledStep(Run(Restore(p), init), steps[|steps| - 1]); }
  }

  lemma FinishedRemains(s: State, step: Step)
    requires Inv(s) && s.task == Loading && Allowed(s, step) && Next(s, step).task != Loading
    ensures Remaining(Next(s, step)) == 0
  {
    hide Next, Inv, Allowed;
    FinishOwesNothing(s, step);
    SumScaled(Owes, OwesLoading, 1, Next(s, step).clients);
  }

  ghost predicate AddsUp(n: nat, s: State, count: nat) {
    count + (if s.task == Loading then Remaining(s) else 0) == n
  }

  /** What has been done and what remains make up what there was to do. */
  lemma {:induction false} WorkAddsUp(p: State, steps: seq<Step>)
    requires Parsed(p) && AllowedRun(Restore(p), steps)
    ensures AddsUp(Sum(ToDo, p.lost), Run(Restore(p), steps), EffectiveCount(Restore(p), steps))
  {
    hide Next, Effective, Allowed, Remaining, Sum;
    if steps == [] {
      StartRemains(p);
    } else {
      hide Restore;
      var init, step := steps[..|steps| - 1], steps[|steps| - 1];
      WorkAddsUp(p, init);
      RestoreRun(p, init);
      hide RunGood;
      var s := Run(Restore(p), init);
      if s.task == Loading {
        StepRemaining(s, step);
        if Next(s, step).task != Loading { FinishedRemains(s, step); }
      } else {
        SettledStep(s, step);
      }
    }
  }

  lemma StartRemains(p: State)
    requires Parsed(p)
    ensures Remaining(Restore(p)) == Sum(ToDo, p.lost) && Restore(p).task == Loading
  {
    RestoreFields(p);
    hide Restore, Sum;
    SumSame(ToDo, Restore(p).lost, p.lost);
    SumNone();
  }

  lemma SumNone()
    ensures Sum(Owes, []) == 0
  {
  }

  lemma {:induction false} PendingInRun(p: State, steps: seq<Step>)
    requires Parsed(p) && p.lost != [] && AllowedRun(Restore(p), steps)
    ensures Run(Restore(p), steps).task == Loading ==> Run(Restore(p), steps).pending >= 1
  {
    hide Next, Allowed;
    if steps == [] {
      RestoreFields(p);
    } else if Run(Restore(p), steps).task == Loading {
      hide Restore;
      var init := steps[..|steps| - 1];
      LoadingBefore(p, steps);
      PendingInRun(p, init);
      RestoreRun(p, init);
      PendingStays(Run(Restore(p), init), steps[|steps| - 1]);
    }
  }

  /** So over every run: with whatever failures a load has come this far, it can still end exactly if the
    project can be started and nobody still waits for a client that will never report. */
  lemma RunCanEndExactlyWhen(p: State, steps: seq<Step>)
    requires Parsed(p) && p.lost != [] && AllowedRun(Restore(p), steps) && Run(Restore(p), steps).task == Loading
    ensures var b, s := Roster(p), Run(Restore(p), steps);
            CanEnd(s) <==> Acyclic(DepsOf(b)) && Startable(b, p.forks) && Unblocked(b, Done(Restore(p), steps), s)
  {
    hide Roster, Restore, RunGood, Acyclic, Startable, Unblocked;
    RestoreRun(p, steps);
    PendingInRun(p, steps);
    CanEndExactlyWhen(Roster(p), p.forks, Done(Restore(p), steps), Run(Restore(p), steps));
  }

  /** Once nothing remains, nobody is owed. */
  lemma NothingRemains(b: map<Id, Client>, done: seq<Id>, s: State)
    requires Inv(s) && s.task == Loading && Placed(b, done, s) && Startable(b, s.forks) && Remaining(s) == 0
    ensures s.pending == 0
  {
    SumZeroEach(Owes, s.clients);
    assert forall k :: 0 <= k < |s.clients| ==> s.clients[k].pending == 0;
    NobodyOwes(b, done, s);
  }

  /** Whatever else happens in between, and whether restores fail or not: a load goes on exactly as long as
    not every client has connected and every client with something to load has reported. So no run of
    a startable project can avoid its end and keep making such steps. */
  lemma EveryRunEnds(p: State, steps: seq<Step>)
    requires Parsed(p) && p.lost != [] && AllowedRun(Restore(p), steps) && Startable(Roster(p), p.forks)
    ensures Run(Restore(p), steps).task == Loading <==> EffectiveCount(Restore(p), steps) < Sum(ToDo, p.lost)
  {
    hide Roster, Restore, Inv, Placed, Startable, Remaining, LaunchSafe, Sum;
    WorkAddsUp(p, steps);
    if Run(Restore(p), steps).task == Loading {
      RestoreRun(p, steps);
      PendingInRun(p, steps);
      if Remaining(Run(Restore(p), steps)) == 0 {
        NothingRemains(Roster(p), Done(Restore(p), steps), Run(Restore(p), steps));
      }
    }
  }

  /** A run without failing reports whose load has ended has restored the whole project: everybody
    was launched exactly once and runs, whoever had something to load has reported success, and
    ProjectLoaded was signalled exactly once. */
  lemma WholeProjectRestored(p: State, steps: seq<Step>)
    requires Parsed(p) && p.lost != [] && AllowedRun(Restore(p), steps) && NoFailures(Restore(p), steps)
    requires Run(Restore(p), steps).task != Loading
    ensures var s := Run(Restore(p), steps);
            && Count(s.out, ProjectLoaded) == 1
            && forall id <- Roster(p) ::
                 UpAndRunning(s, id) && (Loads(Roster(p)[id]) ==> id in Done(Restore(p), steps))
  {
    hide Roster, Restore, Inv, Placed, LaunchSafe, AllUp, UpAndRunning;
    RestoreRun(p, steps);
    HealthyRun(p, steps);
  }

  /** The process id handed out at launch finds the launched client again, provided the kernel
    hands out distinct ids. */
  lemma ConnectFindsLaunched(b: map<Id, Client>, done: seq<Id>, s: State, j: nat)
    requires AllLostGood(b, done, s)
    requires forall x, y :: x in b && y in b && x != y ==>
               ForkPid(s.forks, x) == 0 || ForkPid(s.forks, x) != ForkPid(s.forks, y)
    requires j < |s.lost| && s.lost[j].unsat == [] && s.lost[j].pid != 0
    ensures s.lost[IndexByPid(s.lost, s.lost[j].pid)].id == s.lost[j].id
  {
    var i := IndexByPid(s.lost, s.lost[j].pid);
    assert LostGood(b, s.forks, done, Count(s.out, Launch(s.lost[j].id)), s.lost[j]);
    assert LostGood(b, s.forks, done, Count(s.out, Launch(s.lost[i].id)), s.lost[i]);
  }

  lemma RestoredAlone(p: State, c: Client, name: nat) returns (d: Client)
    requires Parsed(p) && p.lost == [c] && c.deps == [] && ForkPid(p.forks, c.id) != 0 && Stateless(c)
    ensures var s, step := Restore(p), Connect(ForkPid(p.forks, c.id), name, c.id, c.caps);
            && Allowed(s, step) && Next(s, step).task == Idle && Next(s, step).clients == [d]
            && Next(s, step).taskIter == p.taskIter
    ensures d.name == name && d.caps == c.caps && d.hasStore == c.hasStore && d.pending == 0
  {
    hide Resume, Inv;
    var s := Restore(p);
    RestoreFields(p);
    RestoreKeeps(p);
    assert KeepListed(p.lost, []) == [];
    d := s.lost[0].(name := name, restored := true, progress := 100);
    StatelessResumeFields(s, 0, name);
    assert LostOk(p.lost);
    assert [d] + s.clients == [d];
  }

  lemma SavedAlone(s: State, d: Client)
    requires s.task == Idle && s.clients == [d] && d.pending == 0
    requires !d.hasStore && d.caps.dataSet && !d.caps.configFile
    ensures Dies(Save(s), d.name, s.taskIter + 1, 255)
  {
    assert !SomePending([d]) && [d][..0] == [];
    assert CountInternal([d]) == 1;
    assert BeginSaveAll([d], s.taskIter + 1) == [BeginSave(d, s.taskIter + 1)];
  }

  /** How the daemon can come to its end: a data-set client that was never saved is restored, which gives
    it no store, and then reports its first save as done. */
  lemma DeadlyRun(p: State, c: Client, name: nat)
    requires Parsed(p) && p.lost == [c] && c.deps == [] && ForkPid(p.forks, c.id) != 0
    requires !c.saved && !c.hasStore && c.caps.dataSet && !c.caps.configFile
    ensures var steps := [Connect(ForkPid(p.forks, c.id), name, c.id, c.caps), SaveProject];
            AllowedRun(Restore(p), steps) && Dies(Run(Restore(p), steps), name, p.taskIter + 1, 255)
  {
    hide Restore, Save, AddClient, Dies;
    var connect := Connect(ForkPid(p.forks, c.id), name, c.id, c.caps);
    var d := RestoredAlone(p, c, name);
    var s := Next(Restore(p), connect);
    SavedAlone(s, d);
    RunCons(Restore(p), connect, [SaveProject]);
    RunCons(s, SaveProject, []);
  }
}
