/** Clients that the daemon did not launch: what is recorded of them, and that each of them can be saved. */
module Newcomers {
  import opened SessionSpec
  import opened TaskAccounting
  import opened SaveProtocol

  /** The connections of a run, the last one first. */
  function Connects(steps: seq<Step>): seq<Step> {
    if steps == [] then []
    else (if steps[|steps| - 1].Connect? then [steps[|steps| - 1]] else []) + Connects(steps[..|steps| - 1])
  }

  /** The record says what the client said when it connected. It has a store if it saves data sets, and it was
    not restored. */
  predicate AsAnnounced(c: Client, m: Step) {
    && m.Connect? && c.name == m.name && c.id == m.id && c.caps == m.caps && c.pid == m.pid
    && c.hasStore == m.caps.dataSet && !c.restored && c.deps == [] && c.unsat == []
  }

  predicate AllAnnounced(cs: seq<Client>, ms: seq<Step>) {
    |cs| == |ms| && forall k :: 0 <= k < |cs| ==> AsAnnounced(cs[k], ms[k])
  }

  /** A message in which a client says that it has saved its state, or delivers it. */
  predicate SaysSaved(m: Step, name: nat) {
    || (m.Report? && m.name == name && m.percentage == 255)
    || (m.Commit? && m.name == name && m.payload == Configs(true))
  }

  ghost predicate SavedOnlyAfter(cs: seq<Client>, steps: seq<Step>) {
    forall k :: 0 <= k < |cs| && cs[k].saved ==> exists i :: 0 <= i < |steps| && SaysSaved(steps[i], cs[k].name)
  }

  /** Nothing but tasks, percentages and the saved flag has changed, and that flag only where the step says so. */
  ghost predicate Remain(cs: seq<Client>, ds: seq<Client>, m: Step) {
    && |cs| == |ds|
    && forall k :: 0 <= k < |cs| ==>
         && ds[k] == cs[k].(pending := ds[k].pending, kind := ds[k].kind, progress := ds[k].progress,
                            saved := ds[k].saved)
         && (ds[k].saved == cs[k].saved || (ds[k].saved && SaysSaved(m, cs[k].name)))
  }

  lemma CompletionRemains(r: State, m: Step, i: nat, ok: bool, diskOk: bool)
    requires Inv(r) && r.task == Saving && i < |r.clients| && r.clients[i].pending != 0
    requires ok ==> SaysSaved(m, r.clients[i].name)
    ensures Remain(r.clients, TaskCompleted(r, i, ok, diskOk).clients, m)
  {
    hide TaskCompleted, Inv;
    var d := SavingCompletion(r, i, ok, diskOk);
  }

  lemma ProgressRemains(r: State, m: Step, i: nat, percentage: nat)
    requires i < |r.clients|
    ensures Remain(r.clients, ClientProgress(r, i, percentage).clients, m)
  {
  }

  lemma SaveRemains(r: State, m: Step)
    requires Inv(r)
    ensures Remain(r.clients, Save(r).clients, m)
  {
    hide Save, Inv, SaveReady, BeginSaveAll;
    if r.task == Idle {
      IdleIsReady(r);
      SaveFields(r);
      BeginSaveAllAt(r.clients, r.taskIter + 1);
    } else {
      Refused(r);
    }
  }

  lemma DeliveryRemains(r: State, m: Step)
    requires Inv(r) && r.task != Loading && IsDelivery(m)
    ensures Remain(r.clients, Next(r, m).clients, m)
  {
    hide Inv, TaskCompleted, ClientProgress, Remain;
    var i := IndexByName(r.clients, m.name);
    assert Remain(r.clients, r.clients, m) by { NothingChanges(r.clients, m); }
    if i < |r.clients| && Accepts(r.clients[i], m.task) {
      EndingTask(r, i);
      match m
      case Report(_, _, percentage, diskOk) =>
        CompletionRemains(r, m, i, percentage == 255, diskOk);
        ProgressRemains(r, m, i, if percentage > 99 then 99 else percentage);
      case Commit(_, _, payload, diskOk) =>
        if payload.Configs? { CompletionRemains(r, m, i, payload.valid, diskOk); }
    }
  }

  lemma NothingChanges(cs: seq<Client>, m: Step)
    ensures Remain(cs, cs, m)
  {
  }

  /** What a run of a project that was opened empty has recorded. */
  ghost predicate Recorded(steps: seq<Step>, r: State) {
    AllAnnounced(r.clients, Connects(steps)) && SavedOnlyAfter(r.clients, steps)
  }

  lemma RemainsRecorded(steps: seq<Step>, m: Step, cs: seq<Client>, ds: seq<Client>)
    requires AllAnnounced(cs, Connects(steps)) && SavedOnlyAfter(cs, steps) && Remain(cs, ds, m) && !m.Connect?
    ensures AllAnnounced(ds, Connects(steps + [m])) && SavedOnlyAfter(ds, steps + [m])
  {
    var all := steps + [m];
    assert all[..|steps|] == steps && Connects(all) == Connects(steps);
    forall k | 0 <= k < |ds| && ds[k].saved
      ensures exists i :: 0 <= i < |all| && SaysSaved(all[i], ds[k].name)
    {
      if cs[k].saved {
        var i :| 0 <= i < |steps| && SaysSaved(steps[i], cs[k].name);
        assert SaysSaved(all[i], ds[k].name);
      } else {
        assert SaysSaved(all[|steps|], ds[k].name);
      }
    }
  }

  lemma ConnectRecorded(steps: seq<Step>, m: Step, cs: seq<Client>)
    requires AllAnnounced(cs, Connects(steps)) && SavedOnlyAfter(cs, steps) && m.Connect?
    ensures var ds := [NewClient(m.id, m.caps, m.pid, m.name)] + cs;
            AllAnnounced(ds, Connects(steps + [m])) && SavedOnlyAfter(ds, steps + [m])
  {
    var all, ds := steps + [m], [NewClient(m.id, m.caps, m.pid, m.name)] + cs;
    assert all[..|steps|] == steps && Connects(all) == [m] + Connects(steps);
    forall k | 0 <= k < |ds| && ds[k].saved
      ensures exists i :: 0 <= i < |all| && SaysSaved(all[i], ds[k].name)
    {
      var i :| 0 <= i < |steps| && SaysSaved(steps[i], cs[k - 1].name);
      assert SaysSaved(all[i], ds[k].name);
    }
  }

  /** A project without clients, in which nothing goes on. */
  predicate Empty(s: State) {
    Inv(s) && s.task == Idle && s.clients == [] && s.lost == []
  }

  lemma StepRecorded(steps: seq<Step>, r: State, m: Step)
    requires Inv(r) && r.task != Loading && Allowed(r, m) && Recorded(steps, r)
    ensures Recorded(steps + [m], Next(r, m))
  {
    hide Inv, AllAnnounced, SavedOnlyAfter, Remain, Save, Resume, Connects;
    match m
    case SaveProject =>
      SaveRemains(r, m);
      RemainsRecorded(steps, m, r.clients, Save(r).clients);
    case Connect(pid, _, _, _) =>
      if pid != 0 && IndexByPid(r.lost, pid) < |r.lost| { ResumesWhileLoading(r, pid); }
      ConnectRecorded(steps, m, r.clients);
    case Report(_, _, _, _) =>
      hide Next;
      DeliveryRemains(r, m);
      RemainsRecorded(steps, m, r.clients, Next(r, m).clients);
    case Commit(_, _, _, _) =>
      hide Next;
      DeliveryRemains(r, m);
      RemainsRecorded(steps, m, r.clients, Next(r, m).clients);
  }

  /** Over every run of a project that was opened empty: its clients are those that have connected, recorded as
    they said; whoever saves data sets has a store; and nobody counts as saved without having said so. */
  lemma {:induction false} NewcomersRun(s: State, steps: seq<Step>)
    requires Empty(s) && AllowedRun(s, steps)
    ensures var r := Run(s, steps); Inv(r) && r.task != Loading && Recorded(steps, r)
  {
    hide Next, Allowed, Inv, Recorded;
    if steps == [] {
      assert Recorded([], s) by { NobodyRecorded(s); }
    } else {
      var init, m := steps[..|steps| - 1], steps[|steps| - 1];
      NewcomersRun(s, init);
      StepRecorded(init, Run(s, init), m);
      NextKeeps(Run(s, init), m);
      StepCounts(Run(s, init), m);
      assert steps == init + [m];
    }
  }

  lemma NobodyRecorded(s: State)
    requires Empty(s)
    ensures Recorded([], s)
  {
  }

  /** So each of its saves can save everybody. */
  lemma NewcomersCanBeSaved(s: State, steps: seq<Step>)
    requires Empty(s) && AllowedRun(s, steps) && Run(s, steps).task == Idle
    ensures AllStorable(Run(s, steps).clients)
    ensures exists ms :: SavesEverybody(Run(s, steps), ms)
  {
    var r := Run(s, steps);
    NewcomersRun(s, steps);
    assert forall k :: 0 <= k < |r.clients| ==> AsAnnounced(r.clients[k], Connects(steps)[k]);
    hide Inv, Run, AllowedRun, SavesEverybody;
    IdleIsReady(r);
    EverybodySavedExactlyWhen(r);
  }

  /** The client at `k` of `r`, which stands behind those that have connected since, is saved. */
  predicate SavedSince(r: State, k: nat, t: State)
    requires k < |r.clients|
  {
    && |r.clients| <= |t.clients|
    && var d := t.clients[|t.clients| - |r.clients| + k];
       d.name == r.clients[k].name && d.saved && d.pending == 0
  }

  /** The message that delivers the data set of a client. */
  function Delivers(r: State, c: Client): Step {
    Commit(c.name, r.taskIter + 1, Configs(true), true)
  }

  lemma CommitSaves(r: State, ms: seq<Step>, k: nat)
    requires SaveReady(r) && AllowedRun(Save(r), ms) && OneSave(Save(r), ms)
    requires k < |r.clients| && r.clients[k].hasStore && Outstanding(r.clients[k], ms, r.taskIter + 1)
    ensures SavedSince(r, k, Run(Save(r), ms + [Delivers(r, r.clients[k])]))
  {
    hide Inv, Run, Save, Outstanding, SavedBy, SaveReady, AllowedRun, OneSave;
    var c, task, m := r.clients[k], r.taskIter + 1, Delivers(r, r.clients[k]);
    CommitEnds(c, ms, task);
    OneMoreStep(Save(r), ms, m);
    SaveRun(r, ms + [m]);
    var t := Run(Save(r), ms + [m]);
    var olds := Olds(|r.clients|, t.clients);
    assert olds[k] == t.clients[|t.clients| - |r.clients| + k];
    assert Follows(c, olds[k], ms + [m], task);
  }

  /** And a data set that arrives whole and can be written is its client's answer: from then on it counts as
    saved and owes nothing. */
  lemma NewcomerCommits(s: State, steps: seq<Step>, ms: seq<Step>, k: nat)
    requires Empty(s) && AllowedRun(s, steps) && Run(s, steps).task == Idle
    requires var r := Run(s, steps);
             && AllowedRun(Save(r), ms) && OneSave(Save(r), ms)
             && k < |r.clients| && r.clients[k].caps.dataSet && Outstanding(r.clients[k], ms, r.taskIter + 1)
    ensures var r := Run(s, steps); SavedSince(r, k, Run(Save(r), ms + [Delivers(r, r.clients[k])]))
  {
    hide Inv, Save, Outstanding, SaveReady, OneSave, SavedSince, SavedOnlyAfter;
    var r := Run(s, steps);
    NewcomersRun(s, steps);
    assert AsAnnounced(r.clients[k], Connects(steps)[k]);
    hide Run, AllowedRun;
    IdleIsReady(r);
    CommitSaves(r, ms, k);
  }

  lemma CommitEnds(c: Client, ms: seq<Step>, task: nat)
    requires c.hasStore && Outstanding(c, ms, task)
    ensures var m := Commit(c.name, task, Configs(true), true);
            c.caps.HasInternalState() && SavedBy(c, ms + [m], task) && !Outstanding(c, ms + [m], task)
  {
    var m := Commit(c.name, task, Configs(true), true);
    assert (ms + [m])[..|ms|] == ms;
    ReportedAppend(c, ms, m, task);
  }

  lemma OneMoreStep(s: State, ms: seq<Step>, m: Step)
    requires AllowedRun(s, ms) && OneSave(s, ms) && m.Commit?
    ensures AllowedRun(s, ms + [m]) && OneSave(s, ms + [m])
  {
    assert (ms + [m])[..|ms|] == ms;
  }
}
