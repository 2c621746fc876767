/** Which clients of a restored project have a store, and so who of them can be saved again. */
module RestoredStores {
  import opened SessionSpec
  import opened TaskAccounting
  import opened SaveProtocol
  import opened RestoreSchedule
  import opened RestoreRuns
  import opened ClientDependency
  import opened ProjectFile
  import opened ProjectRestore
  import opened Graph

  /** The store of this client is opened when it resumes. */
  predicate Opens(c: Client) {
    c.saved && !c.caps.configFile && c.caps.dataSet
  }

  /** A restored client has a store if it had one or its saved data set was opened, and a newcomer if it saves
    data sets. */
  predicate StoreOk(b: map<Id, Client>, c: Client) {
    if c.restored then c.id in b && c.caps == b[c.id].caps && (c.hasStore <==> b[c.id].hasStore || Opens(b[c.id]))
    else c.hasStore == c.caps.dataSet
  }

  predicate LostAsLoaded(b: map<Id, Client>, c: Client) {
    && c.id in b && c.caps == b[c.id].caps && c.saved == b[c.id].saved && c.hasStore == b[c.id].hasStore
    && !c.restored
  }

  ghost predicate StoresOk(b: map<Id, Client>, s: State) {
    && (forall k :: 0 <= k < |s.clients| ==> StoreOk(b, s.clients[k]))
    && forall k :: 0 <= k < |s.lost| ==> LostAsLoaded(b, s.lost[k])
  }

  /** Whatever has happened to the clients, who they are and whether they have a store is as it was. */
  predicate SameStores(cs: seq<Client>, ds: seq<Client>) {
    && |cs| == |ds|
    && forall k :: 0 <= k < |cs| ==>
         && ds[k].id == cs[k].id && ds[k].caps == cs[k].caps && ds[k].hasStore == cs[k].hasStore
         && ds[k].restored == cs[k].restored
  }

  predicate SameLost(cs: seq<Client>, ds: seq<Client>) {
    SameStores(cs, ds) && forall k :: 0 <= k < |cs| ==> ds[k].saved == cs[k].saved
  }

  lemma StillOk(b: map<Id, Client>, s: State, t: State)
    requires StoresOk(b, s) && SameStores(s.clients, t.clients) && (t.lost == [] || SameLost(s.lost, t.lost))
    ensures StoresOk(b, t)
  {
  }

  lemma CompletionStores(b: map<Id, Client>, s: State, i: nat, ok: bool, diskOk: bool)
    requires Inv(s) && StoresOk(b, s) && i < |s.clients| && s.clients[i].pending != 0
    ensures StoresOk(b, TaskCompleted(s, i, ok, diskOk))
  {
    hide TaskCompleted, Inv;
    var t := TaskCompleted(s, i, ok, diskOk);
    TaskEffectFrame(s, i, ok, diskOk);
    var d := CompletedFields(s, i, ok, diskOk);
    EffectLost(s, i, ok, diskOk);
    hide TaskEffect;
    StillOk(b, s, t);
  }

  lemma EffectLost(s: State, i: nat, ok: bool, diskOk: bool)
    requires i < |s.clients|
    ensures SameLost(s.lost, TaskEffect(s, i, ok, diskOk).lost)
  {
    SatisfyAllAt(s.lost, s.clients[i].id, s.forks);
    hide SatisfyAll, SatisfySignals;
  }

  lemma ResumeStores(b: map<Id, Client>, s: State, j: nat, name: nat)
    requires Inv(s) && s.task == Loading && StoresOk(b, s) && j < |s.lost|
    ensures StoresOk(b, Resume(s, j, name))
  {
    var t, c := Resume(s, j, name), s.lost[j];
    var d := ResumedAs(s, j, name);
    hide Resume, Inv;
    assert LostAsLoaded(b, c);
    assert forall k :: 0 < k < |t.clients| ==> t.clients[k] == s.clients[k - 1];
    assert forall k :: 0 <= k < |t.lost| ==> t.lost[k] == s.lost[if k < j then k else k + 1];
  }

  lemma ResumedAs(s: State, j: nat, name: nat) returns (d: Client)
    requires Inv(s) && s.task == Loading && j < |s.lost|
    ensures var t, c := Resume(s, j, name), s.lost[j];
            && t.clients == [d] + s.clients && t.lost == s.lost[..j] + s.lost[j + 1..]
            && d.id == c.id && d.caps == c.caps && d.restored && (d.hasStore <==> c.hasStore || Opens(c))
  {
    if Stateless(s.lost[j]) {
      hide Resume;
      StatelessResumeFields(s, j, name);
      d := s.lost[j].(name := name, restored := true, progress := 100);
    } else {
      d := ResumedClient(s.lost[j], name, s.taskIter + 1);
    }
  }

  lemma SaveStores(b: map<Id, Client>, s: State)
    requires Inv(s) && StoresOk(b, s)
    ensures StoresOk(b, Save(s))
  {
    hide Save, Inv, SaveReady, StoreOk, LostAsLoaded;
    if s.task == Idle {
      IdleIsReady(s);
      SaveFields(s);
      BeginSaveAllAt(s.clients, s.taskIter + 1);
      hide BeginSaveAll;
      StillOk(b, s, Save(s));
    } else {
      Refused(s);
    }
  }

  lemma NextStores(b: map<Id, Client>, s: State, step: Step)
    requires Inv(s) && Allowed(s, step) && StoresOk(b, s)
    ensures StoresOk(b, Next(s, step))
  {
    hide Inv, Save, TaskCompleted, ClientProgress, Resume, StoresOk;
    match step
    case SaveProject => SaveStores(b, s);
    case Connect(pid, name, id, caps) =>
      var j := IndexByPid(s.lost, pid);
      if pid != 0 && j < |s.lost| {
        ResumesWhileLoading(s, pid);
        ResumeStores(b, s, j, name);
      } else {
        NewcomerStores(b, s, NewClient(id, caps, pid, name));
      }
    case Report(name, task, percentage, diskOk) =>
      var i := IndexByName(s.clients, name);
      if i < |s.clients| && Accepts(s.clients[i], task) {
        CompletionStores(b, s, i, percentage == 255, diskOk);
        ProgressStores(b, s, i, if percentage > 99 then 99 else percentage);
      }
    case Commit(name, task, payload, diskOk) =>
      var i := IndexByName(s.clients, name);
      if i < |s.clients| && Accepts(s.clients[i], task) && payload.Configs? {
        CompletionStores(b, s, i, payload.valid, diskOk);
      }
  }

  lemma ProgressStores(b: map<Id, Client>, s: State, i: nat, percentage: nat)
    requires StoresOk(b, s) && i < |s.clients|
    ensures StoresOk(b, ClientProgress(s, i, percentage))
  {
    StillOk(b, s, ClientProgress(s, i, percentage));
  }

  lemma NewcomerStores(b: map<Id, Client>, s: State, c: Client)
    requires StoresOk(b, s) && !c.restored && c.hasStore == c.caps.dataSet
    ensures StoresOk(b, s.(clients := [c] + s.clients))
  {
    var t := s.(clients := [c] + s.clients);
    assert forall k :: 0 < k < |t.clients| ==> t.clients[k] == s.clients[k - 1];
  }

  lemma StartStores(p: State)
    requires Parsed(p)
    ensures StoresOk(Roster(p), Restore(p))
  {
    RestoreFields(p);
    hide Restore;
    forall k | 0 <= k < |p.lost|
      ensures LostAsLoaded(Roster(p), Restore(p).lost[k])
    {
      RosterAt(p, k);
    }
  }

  lemma {:induction false} StoresRun(p: State, steps: seq<Step>)
    requires Parsed(p) && AllowedRun(Restore(p), steps)
    ensures StoresOk(Roster(p), Run(Restore(p), steps))
  {
    hide Next, Restore, Roster, Allowed, StoresOk, Inv, Placed, AllUp, LaunchSafe, UpAndRunning;
    if steps == [] {
      StartStores(p);
    } else {
      var init, step := steps[..|steps| - 1], steps[|steps| - 1];
      StoresRun(p, init);
      RestoreRun(p, init);
      NextStores(Roster(p), Run(Restore(p), init), step);
    }
  }

  // ------------------------------------------------------------------ who can be saved after a load

  /** Data sets are all the client saves, and it was not saved when the project was. */
  predicate NeverStored(e: ClientElement) {
    e.caps.dataSet && !e.caps.configFile && !e.saved
  }

  lemma RosterStore(es: seq<ClientElement>, p: State, k: nat)
    requires DistinctElements(es) && Parsed(p) && p.lost == LoadedClients(es) && k < |es|
    ensures es[k].id in Roster(p)
    ensures var c := Roster(p)[es[k].id]; c.caps == es[k].caps && c.saved == es[k].saved && !c.hasStore
  {
    hide LoadedClients, GraphOf, Reaches, LastFirst, KeepListed;
    LoadedElement(es, k);
    RosterAt(p, |es| - 1 - k);
  }

  /** Once the load of a file has ended, and whatever has happened since: everybody can be saved exactly if the
    file has no client that saves data sets and had never been saved. */
  lemma SavableExactlyWhen(es: seq<ClientElement>, taskIter: nat, forks: map<Id, nat>, steps: seq<Step>)
    requires DistinctElements(es) && 100 * |es| < U32
    requires AllowedRun(Restore(FromFile(es, taskIter, forks)), steps)
    requires Run(Restore(FromFile(es, taskIter, forks)), steps).task == Idle
    ensures (exists ms :: SavesEverybody(Run(Restore(FromFile(es, taskIter, forks)), steps), ms))
            <==> forall k :: 0 <= k < |es| ==> !NeverStored(es[k])
  {
    var p := FromFile(es, taskIter, forks);
    LoadedIsParsed(es, taskIter, forks);
    RestoreRun(p, steps);
    StoresRun(p, steps);
    var s := Run(Restore(p), steps);
    hide Restore, Roster, Parsed, Run, AllowedRun, LoadedClients, SavesEverybody, Inv, LaunchSafe, AllUp;
    IdleIsReady(s);
    EverybodySavedExactlyWhen(s);
    StorableElements(es, p, s);
  }

  lemma StorableElements(es: seq<ClientElement>, p: State, s: State)
    requires DistinctElements(es) && Parsed(p) && p.lost == LoadedClients(es)
    requires StoresOk(Roster(p), s) && forall id <- Roster(p) :: UpAndRunning(s, id)
    ensures AllStorable(s.clients) <==> forall k :: 0 <= k < |es| ==> !NeverStored(es[k])
  {
    hide LoadedClients, Roster, Parsed, DistinctElements;
    if AllStorable(s.clients) {
      forall k | 0 <= k < |es|
        ensures !NeverStored(es[k])
      {
        RosterStore(es, p, k);
        assert UpAndRunning(s, es[k].id);
        var i :| 0 <= i < |s.clients| && s.clients[i].id == es[k].id && s.clients[i].restored;
        assert StoreOk(Roster(p), s.clients[i]);
      }
    } else {
      var i :| 0 <= i < |s.clients| && s.clients[i].caps.HasInternalState() && !Storable(s.clients[i]);
      assert StoreOk(Roster(p), s.clients[i]);
      var k := RosterIds(es, p, s.clients[i].id);
      RosterStore(es, p, k);
      assert NeverStored(es[k]);
    }
  }
}
