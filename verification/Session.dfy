/** One loaded project and the server around it: the operations update client records,
  counters and lists in place, and compute what `SessionSpec` says. */
module Session {
  import opened Graph
  import opened SessionSpec
  import opened ClientDependency
  import opened ProjectFile
  import opened Sequences

  /** Position of a client in a list. */
  ghost predicate At(cs: seq<LashClient>, c: LashClient, i: nat) {
    i < |cs| && cs[i] == c && forall k :: 0 <= k < |cs| && cs[k] == c ==> k == i
  }

  ghost predicate DistinctObjects(cs: seq<LashClient>) {
    forall i, j :: 0 <= i < j < |cs| ==> cs[i] != cs[j]
  }

  /** find_client_in_list_by_dbus_name */
  method FindByName(clientList: seq<LashClient>, name: nat) returns (i: nat)
    ensures i == IndexByName(Views(clientList), name)
  {
    i := 0;
    while i < |clientList|
      invariant 0 <= i <= |clientList|
      invariant forall j :: 0 <= j < i ==> clientList[j].name != name
    {
      if clientList[i].name == name {
        break;
      }
      i := i + 1;
    }
    ghost var k := IndexByName(Views(clientList), name);
  }

  /** find_client_in_list_by_pid */
  method FindByPid(clientList: seq<LashClient>, pid: nat) returns (i: nat)
    ensures i == IndexByPid(Views(clientList), pid)
  {
    i := 0;
    while i < |clientList|
      invariant 0 <= i <= |clientList|
      invariant forall j :: 0 <= j < i ==> clientList[j].pid != pid
    {
      if clientList[i].pid == pid {
        break;
      }
      i := i + 1;
    }
    ghost var k := IndexByPid(Views(clientList), pid);
  }

  /** check_tasks: a report counts only if it names the task the client is working on. */
  method CheckTasks(client: LashClient, taskId: nat) returns (ok: bool)
    ensures ok <==> Accepts(client.View(), taskId)
  {
    if client.pending == 0 {
      return false;
    } else if client.pending != taskId {
      return false;
    }
    return true;
  }

  lemma ProgressIs(s: State, i: nat, percentage: nat, t: State)
    requires i < |s.clients|
    requires var sum := ((s.progress - s.clients[i].progress) % U32 + percentage) % U32;
             t == s.(clients := s.clients[i := s.clients[i].(progress := percentage)], progress := sum,
                     out := if s.total == 0 then s.out
                            else s.out + [Percent(if (sum / s.total) % U8 > 99 then 99 else (sum / s.total) % U8)])
    ensures t == ClientProgress(s, i, percentage)
  {
  }

  /** What project_client_task_completed does after the progress update. */
  function CountedDown(s1: State, i: nat): State
    requires i < |s1.clients|
  {
    if s1.pending == 0 then s1
    else if s1.pending > 1 then s1.(pending := s1.pending - 1)
    else s1.(pending := 0, task := Idle, total := 0, progress := 0,
             out := s1.out + if s1.clients[i].kind.IsSave() then [Percent(100), ProjectSaved]
                             else if s1.clients[i].kind.IsRestore() then [Percent(100), ProjectLoaded]
                             else [])
  }

  lemma CompletedIs(s: State, i: nat)
    requires i < |s.clients|
    ensures CountedDown(ClientProgress(s, i, 100), i) == ProjectTaskCompleted(s, i)
  {
  }

  lemma SatisfySignalsNone(vs: seq<Client>, id: Id)
    ensures SatisfySignals(vs[..0], id) == []
  {
  }

  lemma SatisfySignalsStep(vs: seq<Client>, i: nat, id: Id)
    requires i < |vs|
    ensures SatisfySignals(vs[..i + 1], id)
            == SatisfySignals(vs[..i], id) + if SatisfyLaunches(vs[i], id) then [Launch(vs[i].id)] else []
  {
    assert vs[..i + 1][..i] == vs[..i];
  }

  function Saved(s: State, i: nat): State
    requires i < |s.clients|
  {
    s.(clients := s.clients[i := s.clients[i].(saved := true)])
  }

  lemma TaskEffectIs(s: State, i: nat, ok: bool, diskOk: bool)
    requires i < |s.clients|
    ensures var c := s.clients[i];
            TaskEffect(s, i, ok, diskOk)
            == if ok && ((c.kind.SaveDataSet? && diskOk) || c.kind.SaveFile?) then Saved(s, i)
               else if c.kind.IsRestore() && ok then Satisfy(s, c.id)
               else s
  {
    hide Satisfy;
  }

  lemma NothingToComplete(s: State, i: nat, ok: bool, diskOk: bool)
    requires i < |s.clients| && s.clients[i].kind.NoTask?
    ensures TaskCompleted(s, i, ok, diskOk) == ClearTask(s, i)
  {
  }

  lemma TaskCompletedIs(s: State, i: nat, ok: bool, diskOk: bool)
    requires i < |s.clients| && !s.clients[i].kind.NoTask?
    ensures TaskCompleted(s, i, ok, diskOk) == ClearTask(ProjectTaskCompleted(TaskEffect(s, i, ok, diskOk), i), i)
  {
    hide ProjectTaskCompleted;
  }

  /** What client_resume_project does to the client between unlinking and linking it. */
  function WithTask(c: Client, task: nat): Client {
    if Stateless(c) then c
    else if c.caps.configFile then c.(pending := task, kind := RestoreFile, progress := 0)
    else if c.caps.storeReady then c.(hasStore := true, pending := task, kind := RestoreDataSet, progress := 0)
    else c.(hasStore := true)
  }

  function Unlinked(s: State, j: nat): State
    requires j < |s.lost|
  {
    s.(lost := s.lost[..j] + s.lost[j + 1..])
  }

  function Linked(s: State, c: Client): State {
    s.(clients := [c] + s.clients)
  }

  /** The restore request to a resuming client. */
  function Requested(s: State, c: Client): State {
    s.(taskIter := s.taskIter + (if Loads(c) then 1 else 0),
       out := s.out + (if Loads(c) then [LoadRequest(c.id, s.taskIter + 1)] else []))
  }

  /** The state once the client at `j` of the lost list is linked into the running list. */
  function Moved(s: State, j: nat): State
    requires j < |s.lost|
  {
    var c := s.lost[j];
    s.(lost := s.lost[..j] + s.lost[j + 1..],
       clients := [WithTask(c, s.taskIter + 1)] + s.clients,
       taskIter := s.taskIter + (if Loads(c) then 1 else 0),
       out := s.out + (if Loads(c) then [LoadRequest(c.id, s.taskIter + 1)] else []))
  }

  /** client_resume_project on values. */
  function Resumed(s: State, j: nat): State
    requires j < |s.lost|
  {
    var t := Moved(s, j);
    if !Stateless(s.lost[j]) then t
    else
      var u := ProjectTaskCompleted(t.(clients := t.clients[0 := t.clients[0].(kind := RestoreDataSet)]), 0);
      u.(clients := u.clients[0 := u.clients[0].(kind := NoTask)])
  }

  /** The connection name and the restored flag are set before the client resumes. */
  function Named(s: State, j: nat, name: nat): State
    requires j < |s.lost|
  {
    s.(lost := s.lost[j := s.lost[j].(name := name, restored := true)])
  }

  lemma NamedMoves(s: State, j: nat, name: nat)
    requires j < |s.lost|
    ensures var c := s.lost[j];
            Moved(Named(s, j, name), j)
            == s.(lost := s.lost[..j] + s.lost[j + 1..],
                  clients := [ResumedClient(c, name, s.taskIter + 1)] + s.clients,
                  taskIter := s.taskIter + (if Loads(c) then 1 else 0),
                  out := s.out + (if Loads(c) then [LoadRequest(c.id, s.taskIter + 1)] else []))
  {
    var n := Named(s, j, name);
    assert n.lost[..j] == s.lost[..j] && n.lost[j + 1..] == s.lost[j + 1..];
  }

  lemma ResumedIs(s: State, j: nat, name: nat)
    requires j < |s.lost|
    ensures Resumed(Named(s, j, name), j) == Resume(s, j, name)
  {
    hide ProjectTaskCompleted, ResumedClient;
    NamedMoves(s, j, name);
    hide Moved;
    assert Stateless(Named(s, j, name).lost[j]) == Stateless(s.lost[j]);
    assert s.out + [] == s.out;
  }

  lemma MovedIs(s: State, j: nat)
    requires j < |s.lost|
    ensures var t := Unlinked(s, j);
            Linked(Requested(t, s.lost[j]), WithTask(s.lost[j], t.taskIter + 1)) == Moved(s, j)
  {
    hide WithTask;
  }

  lemma StatelessIs(s: State, j: nat, t: State, t1: State, t2: State, r: State)
    requires j < |s.lost| && Stateless(s.lost[j]) && t == Moved(s, j)
    requires t1 == t.(clients := t.clients[0 := t.clients[0].(kind := RestoreDataSet)])
    requires t2 == ProjectTaskCompleted(t1, 0)
    requires r == t2.(clients := t2.clients[0 := t2.clients[0].(kind := NoTask)])
    ensures r == Resumed(s, j)
  {
    hide ProjectTaskCompleted, Moved;
  }

  lemma NewDistinct(c: LashClient, cs: seq<LashClient>, ls: seq<LashClient>)
    requires DistinctObjects(cs + ls) && c !in cs && c !in ls
    ensures DistinctObjects(cs + ([c] + ls))
  {
    var us, ws := cs + ls, cs + ([c] + ls);
    assert forall k :: 0 <= k < |ws| && k != |cs| ==> ws[k] == us[if k < |cs| then k else k - 1];
  }

  lemma Apart(c: LashClient, cs: seq<LashClient>, ls: seq<LashClient>)
    requires DistinctObjects([c] + cs + ls)
    ensures c !in cs && c !in ls
  {
    var u := [c] + cs + ls;
    assert forall k :: 0 <= k < |cs| ==> u[k + 1] == cs[k];
    assert forall k :: 0 <= k < |ls| ==> u[|cs| + 1 + k] == ls[k];
    assert forall k :: 0 < k < |u| ==> u[0] != u[k];
  }

  lemma StillDistinct(cs: seq<LashClient>, ls: seq<LashClient>, j: nat)
    requires DistinctObjects(cs + ls) && j < |ls|
    ensures DistinctObjects([ls[j]] + cs + (ls[..j] + ls[j + 1..])) && DistinctObjects(cs + (ls[..j] + ls[j + 1..]))
  {
    var u, v, n := cs + ls, [ls[j]] + cs + (ls[..j] + ls[j + 1..]), |cs|;
    assert v[0] == u[n + j];
    assert forall k :: 0 <= k < n + j ==> v[k + 1] == u[k];
    assert forall k :: n + j < k < |u| ==> v[k] == u[k];
    forall p, q | 0 <= p < q < |v|
      ensures v[p] != v[q]
    {
      var p', q' := if p == 0 then n + j else if p <= n + j then p - 1 else p, if q <= n + j then q - 1 else q;
      assert v[p] == u[p'] && v[q] == u[q'] && p' != q';
    }
    assert v == [ls[j]] + (cs + (ls[..j] + ls[j + 1..]));
    var w := cs + (ls[..j] + ls[j + 1..]);
    forall p, q | 0 <= p < q < |w|
      ensures w[p] != w[q]
    {
      assert v[p + 1] != v[q + 1];
    }
  }

  function Prepared(s: State, i: nat, all: seq<Client>): State
    requires i < |s.lost|
  {
    var launched := KeepListed(all, s.lost[i].deps) == [];
    s.(lost := s.lost[i := PrepareOne(s.lost[i], all, s.forks)],
       total := (s.total + 1) % U32,
       out := s.out + if launched then [Launch(s.lost[i].id)] else [])
  }

  lemma MixNext<T>(ws: seq<T>, vs: seq<T>, i: nat)
    requires i < |ws| == |vs|
    ensures (ws[..i] + vs[i..])[i] == vs[i]
    ensures (ws[..i] + vs[i..])[i := ws[i]] == ws[..i + 1] + vs[i + 1..]
  {
  }

  lemma NextTotal(i: nat)
    ensures (i % U32 + 1) % U32 == (i + 1) % U32
  {
  }

  /** The restore of `s` has prepared the first `i` clients. */
  function Preparing(s: State, i: nat): State
    requires i <= |s.lost|
  {
    PrepareAllAt(s.lost, s.lost, s.forks);
    s.(lost := PrepareAll(s.lost, s.lost, s.forks)[..i] + s.lost[i..], total := i % U32,
       out := s.out + PrepareSignals(s.lost[..i], s.lost))
  }

  lemma PreparingEnds(s: State)
    ensures Preparing(s, 0) == s.(total := 0)
    ensures Preparing(s, |s.lost|) == s.(lost := PrepareAll(s.lost, s.lost, s.forks), total := |s.lost| % U32,
                                         out := s.out + PrepareSignals(s.lost, s.lost))
  {
    PrepareAllAt(s.lost, s.lost, s.forks);
    PrepareSignalsNone(s.lost);
    hide PrepareAll, PrepareSignals;
    assert s.lost[..|s.lost|] == s.lost;
  }

  lemma PreparingNext(s: State, i: nat)
    requires i < |s.lost|
    ensures |Preparing(s, i).lost| == |s.lost| && Prepared(Preparing(s, i), i, s.lost) == Preparing(s, i + 1)
  {
    hide PrepareAll, PrepareOne, PrepareSignals, KeepListed;
    PrepareAllAt(s.lost, s.lost, s.forks);
    PrepareSignalsStep(s.lost, i);
    MixNext(PrepareAll(s.lost, s.lost, s.forks), s.lost, i);
    NextTotal(i);
    PreparingOut(s.out, PrepareSignals(s.lost[..i], s.lost),
                 if KeepListed(s.lost, s.lost[i].deps) == [] then [Launch(s.lost[i].id)] else []);
  }

  lemma PreparingOut(a: seq<Signal>, b: seq<Signal>, c: seq<Signal>)
    ensures (a + b) + c == a + (b + c)
  {
  }

  lemma PreparingIds(s: State, i: nat)
    requires i <= |s.lost|
    ensures var t := Preparing(s, i);
            |t.lost| == |s.lost| && (forall k :: 0 <= k < |t.lost| ==> t.lost[k].id == s.lost[k].id)
  {
    PrepareAllAt(s.lost, s.lost, s.forks);
    hide PrepareAll, PrepareSignals, KeepListed;
  }

  lemma PrepareSignalsNone(vs: seq<Client>)
    ensures PrepareSignals(vs[..0], vs) == []
  {
  }

  lemma PrepareSignalsStep(vs: seq<Client>, i: nat)
    requires i < |vs|
    ensures PrepareSignals(vs[..i + 1], vs)
            == PrepareSignals(vs[..i], vs) + if KeepListed(vs, vs[i].deps) == [] then [Launch(vs[i].id)] else []
  {
    assert vs[..i + 1][..i] == vs[..i];
  }

  lemma {:induction false} KeepListedById(cs: seq<Client>, ds: seq<Client>, s: seq<Id>)
    requires |cs| == |ds| && forall k :: 0 <= k < |cs| ==> cs[k].id == ds[k].id
    ensures KeepListed(cs, s) == KeepListed(ds, s)
  {
    if s != [] {
      ListedById(cs, ds, s[0]);
      KeepListedById(cs, ds, s[1..]);
    }
  }

  lemma CountNone(vs: seq<Client>)
    ensures CountInternal(vs[..0]) % U32 == 0
  {
  }

  lemma CountStep(vs: seq<Client>, i: nat)
    requires i < |vs|
    ensures CountInternal(vs[..i + 1]) % U32
            == if vs[i].caps.HasInternalState() then (CountInternal(vs[..i]) % U32 + 1) % U32
               else CountInternal(vs[..i]) % U32
  {
    assert vs[..i + 1][..i] == vs[..i];
  }

  lemma SaveRefused(s: State)
    requires SomePending(s.clients)
    ensures SessionSpec.SaveClients(s) == s
  {
  }

  /** A save in its three phases: the request, the open tasks, the count of reports to wait for. */
  function Broadcasted(s: State): State {
    s.(task := Saving, total := 0, progress := 0, taskIter := s.taskIter + 1,
       out := s.out + [SaveRequest(s.taskIter + 1)])
  }

  function Asked(s: State): State {
    s.(clients := BeginSaveAll(s.clients, s.taskIter), total := CountInternal(s.clients) % U32)
  }

  function Awaiting(s: State): State {
    s.(pending := s.total, task := if s.total == 0 then Idle else s.task)
  }

  lemma SaveClientsIs(s: State)
    requires !SomePending(s.clients)
    ensures Awaiting(Asked(Broadcasted(s))) == SessionSpec.SaveClients(s)
  {
  }

  lemma UpdatedAt(vs: seq<Client>, ws: seq<Client>, i: nat, c: Client)
    requires i < |vs| == |ws| && ws[i] == c
    requires forall k :: 0 <= k < |vs| && k != i ==> ws[k] == vs[k]
    ensures ws == vs[i := c]
  {
  }

  lemma UpdatedNowhere(vs: seq<Client>, ws: seq<Client>)
    requires |vs| == |ws| && forall k :: 0 <= k < |vs| ==> ws[k] == vs[k]
    ensures ws == vs
  {
  }

  class Project {
    var clients: seq<LashClient>
    var lost: seq<LashClient>
    var task: ProjectTask
    var total: nat
    var pending: nat
    var progress: nat
    var taskIter: nat
    var forks: map<Id, nat>
    var out: seq<Signal>

    ghost predicate Valid()
      reads this
    {
      DistinctObjects(clients + lost) && progress < U32
    }

    /** The client is in neither list. */
    ghost predicate Unlisted(client: LashClient)
      reads this
    {
      DistinctObjects([client] + clients + lost) && progress < U32
    }

    function View(): State
      reads this, clients, lost
    {
      State(Views(clients), Views(lost), task, total, pending, progress, taskIter, forks, out)
    }

    /** project_launch_client: the process id is zero if forking fails. */
    method LaunchClient(client: LashClient)
      modifies this`out, client`pid
      ensures out == old(out) + [Launch(client.id)]
      ensures client.pid == ForkPid(forks, client.id)
    {
      out := out + [Launch(client.id)];
      client.pid := if client.id in forks then forks[client.id] else 0;
    }

    /** One waiting client in the loop of project_satisfy_client_dependency. */
    method SatisfyWaiting(client: LashClient, id: Id)
      modifies this`out, client`unsat, client`pid
      ensures client.View() == SatisfyOne(old(client.View()), id, forks)
      ensures out == old(out) + if SatisfyLaunches(old(client.View()), id) then [Launch(client.id)] else []
    {
      if client.unsat != [] {
        client.unsat := RemoveDependency(client.unsat, id);
        if client.unsat == [] {
          LaunchClient(client);
        }
      }
    }

    /** project_satisfy_client_dependency */
    method SatisfyClientDependency(id: Id)
      requires Valid()
      modifies this`out, lost`unsat, lost`pid
      ensures Valid() && View() == Satisfy(old(View()), id)
    {
      hide Views, SatisfyOne, SatisfyLaunches, SatisfyAll, SatisfySignals;
      ghost var us, vs, ws := Views(clients), Views(lost), SatisfyAll(Views(lost), id, forks);
      SatisfyAllAt(vs, id, forks);
      LostDistinct();
      var i := 0;
      SatisfySignalsNone(vs, id);
      while i < |lost|
        invariant 0 <= i <= |lost|
        invariant forall k :: 0 <= k < |lost| ==> lost[k].View() == if k < i then ws[k] else vs[k]
        invariant out == old(out) + SatisfySignals(vs[..i], id)
      {
        SatisfySignalsStep(vs, i, id);
        SatisfyWaiting(lost[i], id);
        i := i + 1;
      }
      assert vs[..i] == vs;
      UpdatedNowhere(ws, Views(lost));
      UpdatedNowhere(us, Views(clients));
    }

    lemma LostDistinct()
      requires Valid()
      ensures DistinctObjects(lost) && DistinctObjects(clients)
      ensures forall j, k :: 0 <= j < |clients| && 0 <= k < |lost| ==> clients[j] != lost[k]
    {
      var all := clients + lost;
      assert forall k :: 0 <= k < |clients| ==> all[k] == clients[k];
      assert forall k :: 0 <= k < |lost| ==> all[|clients| + k] == lost[k];
      forall j, k | 0 <= j < |clients| && 0 <= k < |lost|
        ensures clients[j] != lost[k]
      {
        assert all[j] != all[|clients| + k];
      }
      forall j, k | 0 <= j < k < |lost|
        ensures lost[j] != lost[k]
      {
        assert all[|clients| + j] != all[|clients| + k];
      }
      forall j, k | 0 <= j < k < |clients|
        ensures clients[j] != clients[k]
      {
        assert all[j] != all[k];
      }
    }

    /** project_client_progress */
    method ClientProgressed(client: LashClient, percentage: nat, ghost i: nat)
      requires Valid() && At(clients, client, i)
      modifies this`progress, this`out, client`progress
      ensures Valid() && View() == ClientProgress(old(View()), i, percentage)
    {
      hide Views, ClientProgress;
      LostDistinct();
      ghost var s := View();
      if client.progress != 0 {
        progress := (progress - client.progress) % U32;
      }
      progress := (progress + percentage) % U32;
      client.progress := percentage;
      UpdatedAt(s.clients, Views(clients), i, s.clients[i].(progress := percentage));
      UpdatedNowhere(s.lost, Views(lost));
      assert progress == ((s.progress - s.clients[i].progress) % U32 + percentage) % U32;
      if total != 0 {
        var p := (progress / total) % U8;
        out := out + [Percent(if p > 99 then 99 else p)];
      }
      ProgressIs(s, i, percentage, View());
    }

    /** project_client_task_completed */
    method ClientTaskCompleted(client: LashClient, ghost i: nat)
      requires Valid() && At(clients, client, i)
      modifies this`progress, this`out, this`pending, this`task, this`total, client`progress
      ensures Valid() && View() == ProjectTaskCompleted(old(View()), i)
    {
      hide Views, ClientProgress, ProjectTaskCompleted, CountedDown;
      ghost var s := View();
      ClientProgressed(client, 100, i);
      CountDown(client, i);
      CompletedIs(s, i);
    }

    /** The end of project_client_task_completed: the last completion ends the project's task. */
    method CountDown(client: LashClient, ghost i: nat)
      requires Valid() && At(clients, client, i)
      modifies this`progress, this`out, this`pending, this`task, this`total
      ensures Valid() && View() == CountedDown(old(View()), i)
    {
      hide Views;
      if pending != 0 {
        pending := pending - 1;
        if pending == 0 {
          task := Idle;
          total := 0;
          progress := 0;
          if client.kind.IsSave() {
            out := out + [Percent(100), ProjectSaved];
          } else if client.kind.IsRestore() {
            out := out + [Percent(100), ProjectLoaded];
          }
        }
      }
    }

    method MarkSaved(client: LashClient, ghost i: nat)
      requires Valid() && At(clients, client, i)
      modifies client`saved
      ensures Valid() && View() == Saved(old(View()), i)
    {
      hide Views;
      ghost var s := View();
      LostDistinct();
      client.saved := true;
      UpdatedAt(s.clients, Views(clients), i, s.clients[i].(saved := true));
      UpdatedNowhere(s.lost, Views(lost));
    }

    /** What client_task_completed does for the kind of task. `diskOk` is the outcome of writing the
      store; writing a store that is not there is the end of the daemon, and the result says so. */
    method ApplyTask(client: LashClient, wasSuccessful: bool, diskOk: bool, ghost i: nat) returns (died: bool)
      requires Valid() && At(clients, client, i)
      modifies this`out, client`saved, lost`unsat, lost`pid
      ensures died <==> old(client.kind.SaveDataSet? && !client.hasStore) && wasSuccessful
      ensures Valid() && View() == if died then old(View()) else TaskEffect(old(View()), i, wasSuccessful, diskOk)
    {
      ghost var s := View();
      TaskEffectIs(s, i, wasSuccessful, diskOk);
      hide Views, Satisfy, Saved, TaskEffect, DistinctObjects;
      if client.kind.SaveDataSet? {
        if wasSuccessful && !client.hasStore {
          return true;
        }
        if wasSuccessful && diskOk {
          MarkSaved(client, i);
        }
      } else if client.kind.SaveFile? {
        if wasSuccessful {
          MarkSaved(client, i);
        }
      } else if client.kind.IsRestore() && wasSuccessful {
        SatisfyClientDependency(client.id);
      }
      return false;
    }

    /** client_task_completed */
    method TaskDone(client: LashClient, wasSuccessful: bool, diskOk: bool, ghost i: nat) returns (died: bool)
      requires Valid() && At(clients, client, i)
      modifies this`progress, this`out, this`pending, this`task, this`total, clients, lost`unsat, lost`pid
      ensures died <==> old(client.kind.SaveDataSet? && !client.hasStore) && wasSuccessful
      ensures Valid()
      ensures View() == if died then old(View()) else TaskCompleted(old(View()), i, wasSuccessful, diskOk)
      ensures clients == old(clients) && lost == old(lost)
    {
      ghost var s := View();
      hide Views, TaskEffect, ProjectTaskCompleted, ClearTask, TaskCompleted, DistinctObjects;
      if client.kind.NoTask? {
        EndTask(client, i);
        NothingToComplete(s, i, wasSuccessful, diskOk);
        return false;
      }
      died := ApplyTask(client, wasSuccessful, diskOk, i);
      if died {
        return;
      }
      ClientTaskCompleted(client, i);
      EndTask(client, i);
      TaskCompletedIs(s, i, wasSuccessful, diskOk);
    }

    /** The end of client_task_completed: the client's task fields are cleared. */
    method EndTask(client: LashClient, ghost i: nat)
      requires Valid() && At(clients, client, i)
      modifies client`pending, client`kind, client`progress
      ensures Valid() && View() == ClearTask(old(View()), i)
    {
      hide Views;
      ghost var s := View();
      LostDistinct();
      client.pending := 0;
      client.kind := NoTask;
      client.progress := 0;
      UpdatedAt(s.clients, Views(clients), i, s.clients[i].(pending := 0, kind := NoTask, progress := 0));
      UpdatedNowhere(s.lost, Views(lost));
    }

    /** client_task_progressed */
    method TaskAdvanced(client: LashClient, percentage: nat, diskOk: bool, ghost i: nat) returns (died: bool)
      requires Valid() && At(clients, client, i) && percentage < U8
      modifies this`progress, this`out, this`pending, this`task, this`total, clients, lost`unsat, lost`pid
      ensures died <==> old(client.kind.SaveDataSet? && !client.hasStore) && percentage == 255
      ensures Valid()
      ensures View() == if died then old(View()) else TaskProgressed(old(View()), i, percentage, diskOk)
      ensures clients == old(clients) && lost == old(lost)
    {
      hide Views, TaskCompleted, ClientProgress;
      died := false;
      if percentage == 0 {
        died := TaskDone(client, false, diskOk, i);
      } else if percentage == 255 {
        died := TaskDone(client, true, diskOk, i);
      } else if percentage <= client.progress {
        return;
      } else if percentage > 99 {
        ClientProgressed(client, 99, i);
      } else {
        ClientProgressed(client, percentage, i);
      }
    }

    /** lashd_dbus_progress */
    method OnProgress(sender: nat, taskId: nat, percentage: nat, diskOk: bool) returns (died: bool)
      requires Valid() && percentage < U8
      modifies this`progress, this`out, this`pending, this`task, this`total, clients, lost`unsat, lost`pid
      ensures died <==> Dies(old(View()), sender, taskId, percentage)
      ensures Valid()
      ensures View() == if died then old(View()) else Next(old(View()), Report(sender, taskId, percentage, diskOk))
    {
      hide Views, TaskProgressed;
      LostDistinct();
      var i := FindByName(clients, sender);
      if i == |clients| {
        return false;
      }
      var ok := CheckTasks(clients[i], taskId);
      if !ok {
        return false;
      }
      died := TaskAdvanced(clients[i], percentage, diskOk, i);
    }

    /** lashd_dbus_commit_data_set; `payload` says what the message holds and whether every
      entry could be stored. */
    method OnCommitDataSet(sender: nat, taskId: nat, payload: Payload, diskOk: bool)
      requires Valid()
      modifies this`progress, this`out, this`pending, this`task, this`total, clients, lost`unsat, lost`pid
      ensures Valid() && View() == Next(old(View()), Commit(sender, taskId, payload, diskOk))
    {
      hide Views, TaskCompleted;
      LostDistinct();
      var i := FindByName(clients, sender);
      if i == |clients| {
        return;
      }
      var client := clients[i];
      var ok := CheckTasks(client, taskId);
      if !ok || !client.hasStore || payload.NotAnArray? || payload.EmptyArray? {
        return;
      }
      var died := TaskDone(client, payload.valid, diskOk, i);
      assert !died;
    }

    /** The first loop of project_save_clients. */
    method AnyPending() returns (found: bool)
      ensures found <==> SomePending(View().clients)
    {
      hide Views;
      var i := 0;
      while i < |clients|
        invariant 0 <= i <= |clients|
        invariant forall k :: 0 <= k < i ==> clients[k].pending == 0
      {
        if clients[i].pending != 0 {
          assert View().clients[i].pending != 0;
          return true;
        }
        i := i + 1;
      }
      return false;
    }

    /** The second loop of project_save_clients. */
    method AskClients()
      requires Valid() && total == 0
      modifies this`total, clients`pending, clients`kind, clients`progress
      ensures Valid() && View() == Asked(old(View()))
    {
      hide Views, BeginSave, BeginSaveAll, CountInternal;
      LostDistinct();
      ghost var us, ls := Views(clients), Views(lost);
      ghost var vs := BeginSaveAll(us, taskIter);
      BeginSaveAllAt(us, taskIter);
      CountNone(us);
      var i := 0;
      while i < |clients|
        invariant 0 <= i <= |clients|
        invariant forall k :: 0 <= k < |clients| ==> clients[k].View() == if k < i then vs[k] else us[k]
        invariant forall k :: 0 <= k < |lost| ==> lost[k].View() == ls[k]
        invariant total == CountInternal(us[..i]) % U32
      {
        CountStep(us, i);
        SaveClient(clients[i]);
        i := i + 1;
      }
      assert us[..i] == us;
      UpdatedNowhere(vs, Views(clients));
      UpdatedNowhere(ls, Views(lost));
    }

    /** project_save_clients up to its second loop: a new task id is broadcast. */
    method BroadcastSave()
      requires Valid()
      modifies this`task, this`total, this`progress, this`taskIter, this`out
      ensures Valid() && View() == Broadcasted(old(View())) && total == 0
    {
      hide Views;
      task := Saving;
      total := 0;
      progress := 0;
      taskIter := taskIter + 1;
      out := out + [SaveRequest(taskIter)];
    }

    /** project_save_clients */
    method SaveClients()
      requires Valid()
      modifies this`task, this`total, this`pending, this`progress, this`taskIter, this`out
      modifies clients`pending, clients`kind, clients`progress
      ensures Valid() && View() == SessionSpec.SaveClients(old(View()))
      ensures clients == old(clients)
    {
      hide *;
      ghost var s := View();
      var found := AnyPending();
      if found {
        SaveRefused(s);
        return;
      }
      SaveClientsIs(s);
      StartSave();
    }

    /** The rest of project_save_clients, once nobody has an open task. */
    method StartSave()
      requires Valid()
      modifies this`task, this`total, this`pending, this`progress, this`taskIter, this`out
      modifies clients`pending, clients`kind, clients`progress
      ensures Valid() && View() == Awaiting(Asked(Broadcasted(old(View()))))
      ensures clients == old(clients)
    {
      hide *;
      BroadcastSave();
      AskClients();
      AwaitReports();
    }

    /** The end of project_save_clients: nothing to wait for if nobody was asked. */
    method AwaitReports()
      requires Valid()
      modifies this`pending, this`task
      ensures Valid() && View() == Awaiting(old(View()))
    {
      hide Views;
      pending := total;
      if total == 0 {
        task := Idle;
      }
    }

    /** One client in the second loop of project_save_clients. */
    method SaveClient(client: LashClient)
      modifies this`total, client`pending, client`kind, client`progress
      ensures client.View() == BeginSave(old(client.View()), taskIter)
      ensures total == if client.caps.HasInternalState() then (old(total) + 1) % U32 else old(total)
    {
      if client.caps.HasInternalState() {
        client.pending := taskIter;
        client.kind := if client.caps.configFile then SaveFile else SaveDataSet;
        client.progress := 0;
        total := (total + 1) % U32;
      }
    }

    /** project_clear_lost_clients, without the removal of directories. */
    method ClearLostClients()
      requires Valid()
      modifies this`lost
      ensures Valid() && View() == old(View()).(lost := [])
      ensures clients == old(clients)
    {
      LostDistinct();
      lost := [];
      assert clients + lost == clients;
    }

    /** project_save; writing the project file and notes is not part of the model. */
    method SaveProject()
      requires Valid()
      modifies this`task, this`total, this`pending, this`progress, this`taskIter, this`out, this`lost
      modifies clients`pending, clients`kind, clients`progress
      ensures Valid() && View() == Save(old(View()))
    {
      hide Views, SessionSpec.SaveClients;
      if task != Idle {
        return;
      }
      out := out + [Percent(0)];
      SaveClients();
      ClearLostClients();
      if total == 0 {
        out := out + [Percent(100), ProjectSaved];
      }
    }

    // ---------------------------------------------------------------- connecting

    /** project_load_file */
    method LoadFile(client: LashClient)
      modifies this`taskIter, this`out, client`pending, client`kind, client`progress
      ensures taskIter == old(taskIter) + 1 && out == old(out) + [LoadRequest(client.id, taskIter)]
      ensures client.View() == old(client.View()).(pending := taskIter, kind := RestoreFile, progress := 0)
    {
      taskIter := taskIter + 1;
      client.pending := taskIter;
      client.kind := RestoreFile;
      client.progress := 0;
      out := out + [LoadRequest(client.id, client.pending)];
    }

    /** project_load_data_set: without a readable, non-empty store no task is assigned. */
    method LoadDataSet(client: LashClient)
      modifies this`taskIter, this`out, client`hasStore, client`pending, client`kind, client`progress
      ensures if client.caps.storeReady then
                && taskIter == old(taskIter) + 1 && out == old(out) + [LoadRequest(client.id, taskIter)]
                && client.View() == old(client.View()).(hasStore := true, pending := taskIter,
                                                        kind := RestoreDataSet, progress := 0)
              else
                taskIter == old(taskIter) && out == old(out) && client.View() == old(client.View()).(hasStore := true)
    {
      client.hasStore := true;
      if !client.caps.storeReady {
        return;
      }
      taskIter := taskIter + 1;
      out := out + [LoadRequest(client.id, taskIter)];
      client.pending := taskIter;
      client.kind := RestoreDataSet;
      client.progress := 0;
    }

    /** The middle of client_resume_project: the client is told to load what it saved. */
    method LoadState(client: LashClient) returns (stateless: bool)
      modifies this`taskIter, this`out, client`hasStore, client`pending, client`kind, client`progress
      ensures stateless == Stateless(old(client.View()))
      ensures client.View() == WithTask(old(client.View()), old(taskIter) + 1)
      ensures taskIter == old(taskIter) + if Loads(old(client.View())) then 1 else 0
      ensures out == old(out) + if Loads(old(client.View())) then [LoadRequest(client.id, taskIter)] else []
    {
      stateless := false;
      if client.saved {
        if client.caps.configFile {
          LoadFile(client);
        } else if client.caps.dataSet {
          LoadDataSet(client);
        } else {
          stateless := true;
        }
      } else {
        stateless := true;
      }
    }

    /** list_del from the lost clients */
    method UnlinkLost(j: nat)
      requires Valid() && j < |lost|
      modifies this`lost
      ensures View() == Unlinked(old(View()), j)
      ensures lost == old(lost)[..j] + old(lost)[j + 1..] && clients == old(clients)
      ensures Unlisted(old(lost)[j]) && Valid()
    {
      LostDistinct();
      ghost var c, vs, ls := lost[j], Views(lost), lost;
      lost := lost[..j] + lost[j + 1..];
      UpdatedNowhere(vs[..j] + vs[j + 1..], Views(lost));
      assert forall k :: 0 <= k < |lost| ==> lost[k] == ls[if k < j then k else k + 1];
      StillDistinct(clients, ls, j);
    }

    /** list_add to the running clients */
    method LinkClient(client: LashClient)
      requires Unlisted(client)
      modifies this`clients
      ensures Valid() && View() == Linked(old(View()), client.View())
      ensures clients == [client] + old(clients) && lost == old(lost) && At(clients, client, 0)
    {
      ghost var vs := Views(clients);
      clients := [client] + clients;
      UpdatedNowhere([client.View()] + vs, Views(clients));
      var all := clients + lost;
      assert forall k :: 0 <= k < |clients| ==> all[k] == clients[k];
    }

    /** Assigns a client's task type. */
    method SetKind(client: LashClient, kind: Kind, ghost i: nat)
      requires Valid() && At(clients, client, i)
      modifies client`kind
      ensures Valid()
      ensures View() == old(View()).(clients := old(View()).clients[i := old(View()).clients[i].(kind := kind)])
    {
      hide Views;
      LostDistinct();
      ghost var s := View();
      client.kind := kind;
      UpdatedAt(s.clients, Views(clients), i, s.clients[i].(kind := kind));
      UpdatedNowhere(s.lost, Views(lost));
    }

    /** client_resume_project up to linking the client into the running list. */
    method MoveToRunning(client: LashClient, j: nat) returns (stateless: bool)
      requires Valid() && j < |lost| && lost[j] == client
      modifies this`taskIter, this`out, this`lost, this`clients
      modifies client`hasStore, client`pending, client`kind, client`progress
      ensures Valid() && View() == Moved(old(View()), j) && stateless == Stateless(old(View()).lost[j])
      ensures clients == [client] + old(clients) && lost == old(lost)[..j] + old(lost)[j + 1..]
      ensures At(clients, client, 0)
    {
      hide *;
      LostAt(j);
      MovedIs(View(), j);
      UnlinkLost(j);
      stateless := LoadUnlinked(client);
      LinkClient(client);
    }

    lemma LostAt(j: nat)
      requires j < |lost|
      ensures |View().lost| == |lost| && View().lost[j] == lost[j].View()
    {
    }

    method LoadUnlinked(client: LashClient) returns (stateless: bool)
      requires Unlisted(client)
      modifies this`taskIter, this`out, client`hasStore, client`pending, client`kind, client`progress
      ensures View() == Requested(old(View()), old(client.View())) && stateless == Stateless(old(client.View()))
      ensures client.View() == WithTask(old(client.View()), old(View()).taskIter + 1)
      ensures Unlisted(client)
    {
      hide Views, WithTask;
      ghost var s := View();
      Apart(client, clients, lost);
      stateless := LoadState(client);
      UpdatedNowhere(s.clients, Views(clients));
      UpdatedNowhere(s.lost, Views(lost));
    }

    /** client_resume_project */
    method ResumeProject(client: LashClient, j: nat)
      requires Valid() && j < |lost| && lost[j] == client
      modifies this`taskIter, this`out, this`lost, this`clients
      modifies this`progress, this`pending, this`task, this`total
      modifies client`hasStore, client`pending, client`kind, client`progress
      ensures Valid() && View() == Resumed(old(View()), j)
      ensures clients == [client] + old(clients) && lost == old(lost)[..j] + old(lost)[j + 1..]
    {
      hide Views, Moved, ProjectTaskCompleted;
      ghost var s := View();
      var stateless := MoveToRunning(client, j);
      ghost var t := View();
      if stateless {
        SetKind(client, RestoreDataSet, 0);
        ghost var t1 := View();
        ClientTaskCompleted(client, 0);
        ghost var t2 := View();
        SetKind(client, NoTask, 0);
        StatelessIs(s, j, t, t1, t2, View());
      }
    }

    /** server_add_client: `pid` identifies a client launched earlier; anyone else is new. */
    method AddClient(pid: nat, name: nat, id: Id, caps: Caps) returns (client: LashClient)
      requires Valid()
      modifies this, lost
      ensures Valid() && View() == SessionSpec.AddClient(old(View()), pid, name, id, caps)
      ensures client in clients
    {
      hide Views, Resumed, Resume;
      ghost var s := View();
      var j := FindByPid(lost, pid);
      if pid != 0 && j < |lost| {
        client := lost[j];
        LostDistinct();
        client.name := name;
        client.restored := true;
        UpdatedAt(s.lost, Views(lost), j, s.lost[j].(name := name, restored := true));
        UpdatedNowhere(s.clients, Views(clients));
        assert View() == Named(s, j, name);
        ResumeProject(client, j);
        ResumedIs(s, j, name);
      } else {
        client := NewClientRecord(pid, name, id, caps);
        LinkClient(client);
      }
    }

    /** project_new_client up to linking: the record of a client the daemon did not launch. */
    method NewClientRecord(pid: nat, name: nat, id: Id, caps: Caps) returns (client: LashClient)
      requires Valid()
      ensures fresh(client) && client.View() == NewClient(id, caps, pid, name)
      ensures Valid() && Unlisted(client)
      ensures View() == old(View())
    {
      client := new LashClient(id, caps, false);
      client.pid := pid;
      client.name := name;
      client.hasStore := caps.dataSet;
      assert [client] + clients + lost == [client] + (clients + lost);
    }

    // ---------------------------------------------------------------- restoring

    /** One client in the loop of server_project_restore; `all` is the project as parsed. */
    method PrepareClient(client: LashClient, ghost all: seq<Client>)
      requires |all| == |lost| && forall k :: 0 <= k < |lost| ==> lost[k].id == all[k].id
      modifies this`out, client`deps, client`unsat, client`pid
      ensures client.View() == PrepareOne(old(client.View()), all, forks)
      ensures out == old(out) + if KeepListed(all, old(client.deps)) == [] then [Launch(client.id)] else []
    {
      hide Views, KeepListed;
      KeepListedById(Views(lost), all, client.deps);
      SanityCheck(lost, client);
      InitUnsatisfied(client);
      ReverseEmpty(client.deps);
      if client.unsat != [] {
        return;
      }
      LaunchClient(client);
    }

    method PrepareAt(i: nat, ghost all: seq<Client>)
      requires Valid() && i < |lost| == |all| && forall k :: 0 <= k < |all| ==> View().lost[k].id == all[k].id
      modifies this`total, this`out, lost`deps, lost`unsat, lost`pid
      ensures Valid() && View() == Prepared(old(View()), i, all)
    {
      hide Views, PrepareOne, KeepListed;
      ghost var s := View();
      LostDistinct();
      total := (total + 1) % U32;
      PrepareClient(lost[i], all);
      UpdatedAt(s.lost, Views(lost), i, PrepareOne(s.lost[i], all, forks));
      UpdatedNowhere(s.clients, Views(clients));
    }

    /** The loop of server_project_restore. */
    method PrepareClients()
      requires Valid() && total == 0
      modifies this`out, this`total, lost`deps, lost`unsat, lost`pid
      ensures Valid()
      ensures var s := old(View());
              View() == s.(lost := PrepareAll(s.lost, s.lost, s.forks), total := |s.lost| % U32,
                           out := s.out + PrepareSignals(s.lost, s.lost))
    {
      ghost var s := View();
      hide Views, Preparing, Prepared, DistinctObjects;
      PreparingEnds(s);
      var i := 0;
      while i < |lost|
        invariant 0 <= i <= |lost| == |s.lost| && Valid() && View() == Preparing(s, i)
      {
        PreparingIds(s, i);
        PreparingNext(s, i);
        PrepareAt(i, s.lost);
        i := i + 1;
      }
    }

    method BeginRestore()
      requires Valid()
      modifies this`task, this`total, this`progress, this`out
      ensures Valid()
      ensures View() == old(View()).(task := Loading, total := 0, progress := 0, out := old(View()).out + [Percent(0)])
    {
      hide Views, DistinctObjects;
      task := Loading;
      total := 0;
      progress := 0;
      out := out + [Percent(0)];
    }

    /** server_project_restore, once the project is parsed and renamed if need be. */
    method RestoreProject()
      requires Valid()
      modifies this`task, this`total, this`pending, this`progress, this`out, lost`deps, lost`unsat, lost`pid
      ensures Valid() && View() == Restore(old(View()))
    {
      hide Views, PrepareAll, PrepareSignals, DistinctObjects;
      BeginRestore();
      PrepareClients();
      pending := total;
    }

    // ---------------------------------------------------------------- loading the project file

    /** The dependencies part of client_parse_xml: the client is not in the lost list yet. */
    method ParseDependencies(client: LashClient, ids: seq<Id>)
      requires client !in lost && client.deps == [] && SearchesEnd(GraphOf(Views(lost)), client.id, ids)
      modifies client`deps
      ensures client.deps == ParsedDeps(GraphOf(Views(lost)), client.id, ids)
      ensures Views(lost) == old(Views(lost))
    {
      hide GraphOf, Ends;
      ghost var vs := Views(lost);
      var i := 0;
      while i < |ids|
        invariant 0 <= i <= |ids|
        invariant Views(lost) == vs
        invariant client.deps == ParsedDeps(GraphOf(vs), client.id, ids[..i])
      {
        assert ids[..i + 1][..i] == ids[..i];
        assert ids[i] in ParsedDeps(GraphOf(vs), client.id, ids[..i]) || Ends(GraphOf(vs), client.id, ids[i]);
        AddDependency(lost, client, ids[i]);
        UpdatedNowhere(vs, Views(lost));
        i := i + 1;
      }
      assert ids[..i] == ids;
    }

    /** list_add to the lost clients */
    method LinkLost(client: LashClient)
      requires Valid() && client !in clients && client !in lost
      modifies this`lost
      ensures Valid() && View() == old(View()).(lost := [client.View()] + old(View()).lost)
      ensures clients == old(clients)
    {
      ghost var ls, vs := lost, Views(lost);
      LostDistinct();
      lost := [client] + lost;
      UpdatedNowhere([client.View()] + vs, Views(lost));
      NewDistinct(client, clients, ls);
    }

    /** One client element: parsed, then put in front of the lost list. */
    method LoadClientElement(e: ClientElement)
      requires Valid() && SearchesEnd(GraphOf(Views(lost)), e.id, e.deps)
      modifies this`lost
      ensures Valid() && View() == old(View()).(lost := [LoadedClient(e, old(View()).lost)] + old(View()).lost)
      ensures clients == old(clients)
    {
      hide GraphOf, SearchesEnd, Views;
      ghost var s := View();
      var client := new LashClient(e.id, e.caps, e.saved);
      assert client !in clients && client !in lost;
      ParseDependencies(client, e.deps);
      LinkLost(client);
    }

    /** The client part of project_load: every element of the file becomes a lost client. Needs no
      more than that the searches along the way come to an end. */
    method LoadClients(elements: seq<ClientElement>)
      requires Valid() && lost == [] && LoadEnds(elements)
      modifies this`lost
      ensures Valid() && View() == old(View()).(lost := LoadedClients(elements))
    {
      hide GraphOf, SearchesEnd, Views, LoadedClient;
      ghost var s := View();
      assert Views([]) == [];
      var i := 0;
      while i < |elements|
        invariant 0 <= i <= |elements|
        invariant Valid() && View() == s.(lost := LoadedClients(elements[..i]))
      {
        assert elements[..i + 1][..i] == elements[..i];
        LoadClientElement(elements[i]);
        i := i + 1;
      }
      assert elements[..i] == elements;
    }
  }
}
