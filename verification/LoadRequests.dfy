/** Who is told to load its state: over every run after a restore, each client that has any, once. */
module LoadRequests {
  import opened SessionSpec
  import opened TaskAccounting
  import opened SaveProtocol
  import opened RestoreSchedule
  import opened RestoreRuns
  import opened ClientDependency
  import opened ProjectFile
  import opened ProjectRestore
  import opened Graph

  ghost predicate Connected(s: State, x: Id) {
    exists k :: 0 <= k < |s.clients| && s.clients[k].id == x && s.clients[k].restored
  }

  /** The client has been told to load once, with one task id. */
  ghost predicate AskedOnce(out: seq<Signal>, x: Id) {
    exists t: nat :: AskedWith(out, x, t)
  }

  ghost predicate AskedWith(out: seq<Signal>, x: Id, t: nat) {
    forall u: nat :: Count(out, LoadRequest(x, u)) == if u == t then 1 else 0
  }

  ghost predicate NeverAsked(out: seq<Signal>, x: Id) {
    forall u: nat :: Count(out, LoadRequest(x, u)) == 0
  }

  /** Exactly those have been told to load that are connected and have something to load; and whoever still
    owes a report was told with the task it owes. */
  ghost predicate Asked(b: map<Id, Client>, s: State) {
    && (forall x :: if x in b && Loads(b[x]) && Connected(s, x) then AskedOnce(s.out, x) else NeverAsked(s.out, x))
    && (s.task == Loading ==>
          forall k :: 0 <= k < |s.clients| && s.clients[k].pending != 0 ==>
            AskedWith(s.out, s.clients[k].id, s.clients[k].pending))
  }

  // ------------------------------------------------------------------ steps that ask nobody

  /** The same clients are connected, nobody has been given a task, and nobody was told to load. */
  ghost predicate AsksNobody(s: State, t: State) {
    && (forall x, u: nat :: Count(t.out, LoadRequest(x, u)) == Count(s.out, LoadRequest(x, u)))
    && (forall x :: Connected(t, x) <==> Connected(s, x))
    && (t.task == Loading ==> s.task == Loading)
    && (t.task == Loading ==> forall k :: 0 <= k < |t.clients| && t.clients[k].pending != 0 ==>
          exists j :: 0 <= j < |s.clients| && s.clients[j].id == t.clients[k].id
                      && s.clients[j].pending == t.clients[k].pending)
  }

  lemma StillAsked(b: map<Id, Client>, s: State, t: State)
    requires Asked(b, s) && AsksNobody(s, t)
    ensures Asked(b, t)
  {
    hide Connected, Count;
    forall x
      ensures if x in b && Loads(b[x]) && Connected(t, x) then AskedOnce(t.out, x) else NeverAsked(t.out, x)
    {
      if x in b && Loads(b[x]) && Connected(t, x) {
        var u: nat :| AskedWith(s.out, x, u);
        assert AskedWith(t.out, x, u);
      } else {
        assert NeverAsked(s.out, x);
      }
    }
    if t.task == Loading {
      forall k | 0 <= k < |t.clients| && t.clients[k].pending != 0
        ensures AskedWith(t.out, t.clients[k].id, t.clients[k].pending)
      {
        var j :| 0 <= j < |s.clients| && s.clients[j].id == t.clients[k].id
                 && s.clients[j].pending == t.clients[k].pending;
        assert AskedWith(s.out, s.clients[j].id, s.clients[j].pending);
      }
    }
  }

  /** Position by position the same clients, with no new tasks. */
  ghost predicate SameClients(cs: seq<Client>, ds: seq<Client>) {
    && |cs| == |ds|
    && forall k :: 0 <= k < |cs| ==>
         && ds[k].id == cs[k].id && ds[k].restored == cs[k].restored
         && (ds[k].pending == 0 || ds[k].pending == cs[k].pending)
  }

  lemma SameClientsAskNobody(s: State, t: State)
    requires SameClients(s.clients, t.clients) && (t.task == Loading ==> s.task == Loading)
    requires forall x, u: nat :: Count(t.out, LoadRequest(x, u)) == Count(s.out, LoadRequest(x, u))
    ensures AsksNobody(s, t)
  {
    hide Count, Connected;
    SameConnected(s, t);
  }

  lemma CompletionAsksNobody(s: State, i: nat, ok: bool, diskOk: bool)
    requires Inv(s) && i < |s.clients| && s.clients[i].pending != 0
    ensures AsksNobody(s, TaskCompleted(s, i, ok, diskOk))
  {
    hide TaskCompleted, TaskEffect, Inv, Count;
    var t := TaskCompleted(s, i, ok, diskOk);
    TaskEffectFrame(s, i, ok, diskOk);
    var d := CompletedFields(s, i, ok, diskOk);
    OpenKind(s, i);
    forall x, u: nat
      ensures Count(t.out, LoadRequest(x, u)) == Count(s.out, LoadRequest(x, u))
    {
      TaskCompletedCounts(s, i, ok, diskOk, LoadRequest(x, u));
      EffectAsksNobody(s, i, ok, diskOk, LoadRequest(x, u));
    }
    OneFewerTask(s, s.clients[i := d], TaskEffect(s, i, ok, diskOk).lost, t);
    SameClientsAskNobody(s, t);
  }

  lemma OpenKind(s: State, i: nat)
    requires Inv(s) && i < |s.clients| && s.clients[i].pending != 0
    ensures s.clients[i].kind != NoTask
  {
    assert ClientOk(s.task, s.taskIter, s.clients[i]);
  }

  lemma OneFewerTask(s: State, cs: seq<Client>, lost: seq<Client>, t: State)
    requires OneFewer(s, cs, lost, t)
    ensures t.clients == cs && (t.task == Loading ==> s.task == Loading)
  {
  }

  lemma EffectAsksNobody(s: State, i: nat, ok: bool, diskOk: bool, g: Signal)
    requires i < |s.clients| && g.LoadRequest?
    ensures Count(TaskEffect(s, i, ok, diskOk).out, g) == Count(s.out, g)
  {
    SatisfyAllAt(s.lost, s.clients[i].id, s.forks);
    hide SatisfyAll, SatisfySignals;
    OnlyLaunches(s.out, SatisfySignals(s.lost, s.clients[i].id), g);
  }

  lemma ProgressAsksNobody(s: State, i: nat, percentage: nat)
    requires i < |s.clients|
    ensures AsksNobody(s, ClientProgress(s, i, percentage))
  {
    hide Count;
    var t := ClientProgress(s, i, percentage);
    forall x, u: nat
      ensures Count(t.out, LoadRequest(x, u)) == Count(s.out, LoadRequest(x, u))
    {
      ClientProgressCounts(s, i, percentage, LoadRequest(x, u));
    }
    SameClientsAskNobody(s, t);
  }

  lemma SaveAsksNobody(s: State)
    requires Inv(s)
    ensures AsksNobody(s, Save(s))
  {
    if s.task == Idle {
      IdleIsReady(s);
      SaveFields(s);
      BeginSaveAllAt(s.clients, s.taskIter + 1);
      hide Save, BeginSaveAll, Inv, Count, Connected, SaveReady;
      SameConnected(s, Save(s));
      forall x, u: nat
        ensures Count(Save(s).out, LoadRequest(x, u)) == Count(s.out, LoadRequest(x, u))
      {
        SaveSends(s, LoadRequest(x, u));
      }
    } else {
      SameClientsAskNobody(s, s);
    }
  }

  lemma SaveSends(s: State, g: Signal)
    requires SaveReady(s) && g.LoadRequest?
    ensures Count(Save(s).out, g) == Count(s.out, g)
  {
    SaveFields(s);
    hide Save;
  }

  lemma SameConnected(s: State, t: State)
    requires |t.clients| == |s.clients|
    requires forall k :: 0 <= k < |s.clients| ==>
               t.clients[k].id == s.clients[k].id && t.clients[k].restored == s.clients[k].restored
    ensures forall x :: Connected(t, x) <==> Connected(s, x)
  {
    forall x
      ensures Connected(t, x) <==> Connected(s, x)
    {
      if Connected(s, x) {
        var k :| 0 <= k < |s.clients| && s.clients[k].id == x && s.clients[k].restored;
        assert t.clients[k].id == x;
      }
    }
  }

  lemma NewcomerAsksNobody(s: State, c: Client)
    requires c.pending == 0 && !c.restored
    ensures AsksNobody(s, s.(clients := [c] + s.clients))
  {
    var t := s.(clients := [c] + s.clients);
    forall x
      ensures Connected(t, x) <==> Connected(s, x)
    {
      if Connected(s, x) {
        var k :| 0 <= k < |s.clients| && s.clients[k].id == x && s.clients[k].restored;
        assert t.clients[k + 1] == s.clients[k];
      }
    }
    assert forall k :: 0 < k < |t.clients| ==> t.clients[k] == s.clients[k - 1];
  }

  // ------------------------------------------------------------------ the step that asks

  lemma ResumeSends(s: State, j: nat, name: nat)
    requires Inv(s) && s.task == Loading && j < |s.lost|
    ensures var c, task := s.lost[j], s.taskIter + 1;
            forall x, u: nat :: Count(Resume(s, j, name).out, LoadRequest(x, u))
                                == Count(s.out, LoadRequest(x, u)) + if Loads(c) && x == c.id && u == task then 1 else 0
  {
    hide Inv;
    var c, task := s.lost[j], s.taskIter + 1;
    forall x, u: nat
      ensures Count(Resume(s, j, name).out, LoadRequest(x, u))
              == Count(s.out, LoadRequest(x, u)) + if Loads(c) && x == c.id && u == task then 1 else 0
    {
      if Stateless(c) { StatelessResumeSignals(s, j, name, LoadRequest(x, u)); }
    }
  }

  lemma ResumeShape(s: State, j: nat, name: nat) returns (d: Client)
    requires Inv(s) && s.task == Loading && j < |s.lost|
    ensures var t := Resume(s, j, name);
            && t.clients == [d] + s.clients && d.id == s.lost[j].id && d.restored
            && (d.pending != 0 ==> Loads(s.lost[j]) && d.pending == s.taskIter + 1)
  {
    if Stateless(s.lost[j]) {
      hide Resume;
      assert LostOk(s.lost);
      StatelessResumeFields(s, j, name);
      d := s.lost[j].(name := name, restored := true, progress := 100);
    } else {
      assert LostOk(s.lost);
      d := ResumedClient(s.lost[j], name, s.taskIter + 1);
    }
  }

  lemma ConnectedMore(s: State, d: Client, t: State)
    requires t.clients == [d] + s.clients && d.restored
    ensures forall x :: Connected(t, x) <==> x == d.id || Connected(s, x)
  {
    forall x
      ensures Connected(t, x) <==> x == d.id || Connected(s, x)
    {
      assert t.clients[0] == d;
      if Connected(s, x) {
        var k :| 0 <= k < |s.clients| && s.clients[k].id == x && s.clients[k].restored;
        assert t.clients[k + 1] == s.clients[k];
      }
      if Connected(t, x) {
        var k :| 0 <= k < |t.clients| && t.clients[k].id == x && t.clients[k].restored;
        if k > 0 { assert s.clients[k - 1] == t.clients[k]; }
      }
    }
  }

  lemma NotConnectedYet(b: map<Id, Client>, done: seq<Id>, s: State, j: nat)
    requires Placed(b, done, s) && j < |s.lost|
    ensures !Connected(s, s.lost[j].id) && SameClient(b, s.lost[j])
    ensures forall k :: 0 <= k < |s.clients| ==> s.clients[k].id != s.lost[j].id
  {
    assert LostGood(b, s.forks, done, Count(s.out, Launch(s.lost[j].id)), s.lost[j]);
    var all := s.clients + s.lost;
    assert all[|s.clients| + j] == s.lost[j];
    forall k | 0 <= k < |s.clients|
      ensures s.clients[k].id != s.lost[j].id
    {
      assert all[k] == s.clients[k];
    }
  }

  /** The client that connects is told to load, if it has anything, with the task it gets. */
  lemma ResumeAsks(b: map<Id, Client>, done: seq<Id>, s: State, j: nat, name: nat)
    requires Inv(s) && s.task == Loading && Placed(b, done, s) && Asked(b, s) && j < |s.lost|
    ensures Asked(b, Resume(s, j, name))
  {
    var c, task, t := s.lost[j], s.taskIter + 1, Resume(s, j, name);
    ResumeSends(s, j, name);
    var d := ResumeShape(s, j, name);
    ConnectedMore(s, d, t);
    NotConnectedYet(b, done, s, j);
    ResumedAsked(b, s, c, d, task, t);
  }

  lemma ResumedAsked(b: map<Id, Client>, s: State, c: Client, d: Client, task: nat, t: State)
    requires Asked(b, s) && s.task == Loading && SameClient(b, c) && !Connected(s, c.id)
    requires t.clients == [d] + s.clients && d.id == c.id && (d.pending != 0 ==> Loads(c) && d.pending == task)
    requires forall x :: Connected(t, x) <==> x == d.id || Connected(s, x)
    requires forall x, u: nat ::
               Count(t.out, LoadRequest(x, u))
               == Count(s.out, LoadRequest(x, u)) + if Loads(c) && x == c.id && u == task then 1 else 0
    requires forall k :: 0 <= k < |s.clients| ==> s.clients[k].id != c.id
    ensures Asked(b, t)
  {
    hide Connected, Count;
    assert NeverAsked(s.out, c.id);
    forall x
      ensures if x in b && Loads(b[x]) && Connected(t, x) then AskedOnce(t.out, x) else NeverAsked(t.out, x)
    {
      if x == c.id {
        if Loads(c) { assert AskedWith(t.out, x, task); }
      } else if x in b && Loads(b[x]) && Connected(s, x) {
        var u: nat :| AskedWith(s.out, x, u);
        assert AskedWith(t.out, x, u);
      } else {
        assert NeverAsked(s.out, x);
      }
    }
    if t.task == Loading {
      forall k | 0 <= k < |t.clients| && t.clients[k].pending != 0
        ensures AskedWith(t.out, t.clients[k].id, t.clients[k].pending)
      {
        if k > 0 {
          assert t.clients[k] == s.clients[k - 1];
          assert AskedWith(s.out, s.clients[k - 1].id, s.clients[k - 1].pending);
          assert s.clients[k - 1].id != c.id;
        }
      }
    }
  }

  // ------------------------------------------------------------------ every run

  lemma NextAsked(b: map<Id, Client>, done: seq<Id>, s: State, step: Step)
    requires Inv(s) && Allowed(s, step) && Asked(b, s) && (s.task == Loading ==> Placed(b, done, s))
    ensures Asked(b, Next(s, step))
  {
    hide Inv, Asked, AsksNobody, Save, TaskCompleted, ClientProgress, Resume, Placed;
    match step
    case SaveProject =>
      SaveAsksNobody(s);
      StillAsked(b, s, Save(s));
    case Connect(pid, name, id, caps) =>
      var j := IndexByPid(s.lost, pid);
      if pid != 0 && j < |s.lost| {
        ResumesWhileLoading(s, pid);
        ResumeAsks(b, done, s, j, name);
      } else {
        var c := NewClient(id, caps, pid, name);
        NewcomerAsksNobody(s, c);
        StillAsked(b, s, s.(clients := [c] + s.clients));
      }
    case Report(name, task, percentage, diskOk) =>
      var i := IndexByName(s.clients, name);
      if i < |s.clients| && Accepts(s.clients[i], task) {
        CompletionAsksNobody(s, i, percentage == 255, diskOk);
        StillAsked(b, s, TaskCompleted(s, i, percentage == 255, diskOk));
        var shown := if percentage > 99 then 99 else percentage;
        ProgressAsksNobody(s, i, shown);
        StillAsked(b, s, ClientProgress(s, i, shown));
      }
    case Commit(name, task, payload, diskOk) =>
      var i := IndexByName(s.clients, name);
      if i < |s.clients| && Accepts(s.clients[i], task) && payload.Configs? {
        CompletionAsksNobody(s, i, payload.valid, diskOk);
        StillAsked(b, s, TaskCompleted(s, i, payload.valid, diskOk));
      }
  }

  lemma NobodyAskedYet(p: State)
    requires Parsed(p)
    ensures Asked(Roster(p), Restore(p))
  {
    RestoreFields(p);
    PrepareAllAt(p.lost, p.lost, p.forks);
    var s := Restore(p);
    hide Restore, Roster, PrepareSignals, PrepareAll;
    forall x, u: nat
      ensures Count(s.out, LoadRequest(x, u)) == 0
    {
      OnlyLaunches([Percent(0)], PrepareSignals(p.lost, p.lost), LoadRequest(x, u));
    }
  }

  /** Over every run after a restore: a client has been told to load exactly if it has connected and has
    anything to load, and then once, with the task it owes. */
  lemma {:induction false} RequestsRun(p: State, steps: seq<Step>)
    requires Parsed(p) && AllowedRun(Restore(p), steps)
    ensures Asked(Roster(p), Run(Restore(p), steps))
  {
    hide Next, Restore, Roster, Allowed, Asked, Inv, Placed, AllUp, LaunchSafe, UpAndRunning;
    if steps == [] {
      NobodyAskedYet(p);
    } else {
      var init, step := steps[..|steps| - 1], steps[|steps| - 1];
      RequestsRun(p, init);
      RestoreRun(p, init);
      NextAsked(Roster(p), Done(Restore(p), init), Run(Restore(p), init), step);
    }
  }

  /** So it is for the clients of a file: those saved with a config file, or with a data set that is there,
    and no others. */
  lemma ElementIsAsked(es: seq<ClientElement>, taskIter: nat, forks: map<Id, nat>, steps: seq<Step>, k: nat)
    requires DistinctElements(es) && 100 * |es| < U32 && k < |es|
    requires AllowedRun(Restore(FromFile(es, taskIter, forks)), steps)
    ensures var s, e := Run(Restore(FromFile(es, taskIter, forks)), steps), es[k];
            if Connected(s, e.id) && e.saved && (e.caps.configFile || (e.caps.dataSet && e.caps.storeReady))
            then AskedOnce(s.out, e.id)
            else NeverAsked(s.out, e.id)
  {
    var p := FromFile(es, taskIter, forks);
    LoadedIsParsed(es, taskIter, forks);
    RosterElement(es, p, k);
    hide Restore, Roster, Parsed, LoadedClients, AskedOnce, NeverAsked, Connected, FileDeps;
    RequestsRun(p, steps);
  }
}
