/** The state of one loaded project and what each daemon operation does to it, on values.

  The classes in `Session` update the same state in place and are proved to compute these
  functions; the run modules prove what the functions keep. */
module SessionSpec {
  import opened Graph
  import opened Sequences

  const U32 := 0x1_0000_0000
  const U8 := 0x100

  /** What a client is working on (`task_type` of a client). */
  datatype Kind = NoTask | SaveFile | SaveDataSet | RestoreFile | RestoreDataSet {
    predicate IsSave() { SaveFile? || SaveDataSet? }
    predicate IsRestore() { RestoreFile? || RestoreDataSet? }
  }

  /** What the project is working on (`task_type` of a project). */
  datatype ProjectTask = Idle | Saving | Loading

  /** Abilities of a client. `storeReady` is an oracle: opening the client's store succeeds
    and yields at least one key. */
  datatype Caps = Caps(configFile: bool, dataSet: bool, storeReady: bool) {
    predicate HasInternalState() { configFile || dataSet }
  }

  datatype Client = Client(
    id: Id,
    caps: Caps,
    saved: bool,       // LASH_Saved
    restored: bool,    // LASH_Restored
    hasStore: bool,    // the store pointer is not NULL
    name: nat,         // D-Bus connection name
    pid: nat,          // 0: not launched by the daemon
    deps: seq<Id>,
    unsat: seq<Id>,
    pending: nat,      // pending task id, 0: none
    kind: Kind,
    progress: nat)

  /** Everything the outside world sees, in order. */
  datatype Signal =
    | Percent(value: nat)
    | SaveRequest(task: nat)
    | LoadRequest(id: Id, task: nat)
    | Launch(id: Id)
    | ProjectSaved
    | ProjectLoaded

  /** `forks` is the kernel's oracle: the process id that launching a client will yield. A
    client without an entry cannot be forked. */
  datatype State = State(
    clients: seq<Client>,
    lost: seq<Client>,
    task: ProjectTask,
    total: nat,
    pending: nat,
    progress: nat,
    taskIter: nat,
    forks: map<Id, nat>,
    out: seq<Signal>)

  // ------------------------------------------------------------------ lookups

  /** Position of the first client with a connection name, or the length of the list. */
  function IndexByName(cs: seq<Client>, name: nat): (i: nat)
    ensures i <= |cs| && (i < |cs| ==> cs[i].name == name)
    ensures forall k :: 0 <= k < i ==> cs[k].name != name
  {
    if cs == [] || cs[0].name == name then 0 else 1 + IndexByName(cs[1..], name)
  }

  function IndexByPid(cs: seq<Client>, pid: nat): (i: nat)
    ensures i <= |cs| && (i < |cs| ==> cs[i].pid == pid)
    ensures forall k :: 0 <= k < i ==> cs[k].pid != pid
  {
    if cs == [] || cs[0].pid == pid then 0 else 1 + IndexByPid(cs[1..], pid)
  }

  predicate Listed(cs: seq<Client>, id: Id) {
    exists k :: 0 <= k < |cs| && cs[k].id == id
  }

  /** The dependency graph a client list makes visible; the first client with an id counts. */
  function GraphOf(cs: seq<Client>): Deps {
    if cs == [] then map[] else GraphOf(cs[1..])[cs[0].id := cs[0].deps]
  }

  // ------------------------------------------------------------------ dependency lists

  /** Drops the first occurrence only. */
  function RemoveFirst(s: seq<Id>, id: Id): seq<Id> {
    if s == [] then [] else if s[0] == id then s[1..] else [s[0]] + RemoveFirst(s[1..], id)
  }

  /** One occurrence is taken out, the first; or there was none. */
  lemma {:induction false} RemoveFirstAt(s: seq<Id>, i: nat)
    requires i <= |s|
    ensures i < |s| && (forall j :: 0 <= j < i ==> s[j] != s[i]) ==> RemoveFirst(s, s[i]) == s[..i] + s[i + 1..]
    ensures forall id :: id !in s ==> RemoveFirst(s, id) == s
  {
    if s != [] {
      RemoveFirstAt(s[1..], if i == 0 then 0 else i - 1);
      if 0 < i < |s| { assert s[..i] + s[i + 1..] == [s[0]] + (s[1..][..i - 1] + s[1..][i..]); }
    }
  }

  /** Keeps the dependencies on clients that are listed. */
  function KeepListed(cs: seq<Client>, s: seq<Id>): seq<Id> {
    if s == [] then []
    else (if Listed(cs, s[0]) then [s[0]] else []) + KeepListed(cs, s[1..])
  }

  // ------------------------------------------------------------------ launching

  function ForkPid(forks: map<Id, nat>, id: Id): nat {
    if id in forks then forks[id] else 0
  }

  /** One waiting client learns that client `id` is restored. */
  function SatisfyOne(c: Client, id: Id, forks: map<Id, nat>): Client {
    if c.unsat == [] then c
    else if RemoveFirst(c.unsat, id) == [] then c.(unsat := [], pid := ForkPid(forks, c.id))
    else c.(unsat := RemoveFirst(c.unsat, id))
  }

  predicate SatisfyLaunches(c: Client, id: Id) {
    c.unsat != [] && RemoveFirst(c.unsat, id) == []
  }

  function SatisfyAll(cs: seq<Client>, id: Id, forks: map<Id, nat>): seq<Client> {
    if cs == [] then []
    else SatisfyAll(cs[..|cs| - 1], id, forks) + [SatisfyOne(cs[|cs| - 1], id, forks)]
  }

  function SatisfySignals(cs: seq<Client>, id: Id): seq<Signal> {
    if cs == [] then []
    else SatisfySignals(cs[..|cs| - 1], id)
         + if SatisfyLaunches(cs[|cs| - 1], id) then [Launch(cs[|cs| - 1].id)] else []
  }

  function Satisfy(s: State, id: Id): State {
    s.(lost := SatisfyAll(s.lost, id, s.forks), out := s.out + SatisfySignals(s.lost, id))
  }

  /** A freshly parsed client enters a restore among the clients `all`. */
  function PrepareOne(c: Client, all: seq<Client>, forks: map<Id, nat>): Client {
    var deps := KeepListed(all, c.deps);
    c.(deps := deps, unsat := Reverse(deps), pid := if deps == [] then ForkPid(forks, c.id) else c.pid)
  }

  function PrepareAll(cs: seq<Client>, all: seq<Client>, forks: map<Id, nat>): seq<Client> {
    if cs == [] then []
    else PrepareAll(cs[..|cs| - 1], all, forks) + [PrepareOne(cs[|cs| - 1], all, forks)]
  }

  function PrepareSignals(cs: seq<Client>, all: seq<Client>): seq<Signal> {
    if cs == [] then []
    else PrepareSignals(cs[..|cs| - 1], all)
         + if KeepListed(all, cs[|cs| - 1].deps) == [] then [Launch(cs[|cs| - 1].id)] else []
  }

  /** Launches come in the order of the list. */
  lemma {:induction false} LaunchesInOrder(a: seq<Client>, b: seq<Client>, id: Id, all: seq<Client>)
    ensures SatisfySignals(a + b, id) == SatisfySignals(a, id) + SatisfySignals(b, id)
    ensures PrepareSignals(a + b, all) == PrepareSignals(a, all) + PrepareSignals(b, all)
  {
    if b == [] {
      assert a + b == a;
    } else {
      hide SatisfyLaunches, KeepListed;
      var init := b[..|b| - 1];
      assert (a + b)[..|a + b| - 1] == a + init && (a + b)[|a + b| - 1] == b[|b| - 1];
      LaunchesInOrder(a, init, id, all);
    }
  }

  /** server_project_restore */
  function Restore(s: State): State {
    s.(lost := PrepareAll(s.lost, s.lost, s.forks),
       task := Loading,
       total := |s.lost| % U32,
       pending := |s.lost| % U32,
       progress := 0,
       out := s.out + [Percent(0)] + PrepareSignals(s.lost, s.lost))
  }

  // ------------------------------------------------------------------ progress accounting

  /** project_client_progress: 32-bit sums, the quotient truncated to 8 bits. */
  function ClientProgress(s: State, i: nat, percentage: nat): State
    requires i < |s.clients|
  {
    var c := s.clients[i];
    var sum := ((s.progress - c.progress) % U32 + percentage) % U32;
    var s1 := s.(clients := s.clients[i := c.(progress := percentage)], progress := sum);
    if s.total == 0 then s1
    else
      var p := (sum / s.total) % U8;
      s1.(out := s1.out + [Percent(if p > 99 then 99 else p)])
  }

  /** project_client_task_completed */
  function ProjectTaskCompleted(s: State, i: nat): State
    requires i < |s.clients|
  {
    var s1 := ClientProgress(s, i, 100);
    if s1.pending == 0 then s1
    else if s1.pending > 1 then s1.(pending := s1.pending - 1)
    else
      var s2 := s1.(pending := 0, task := Idle, total := 0, progress := 0);
      if s2.clients[i].kind.IsSave() then s2.(out := s2.out + [Percent(100), ProjectSaved])
      else if s2.clients[i].kind.IsRestore() then s2.(out := s2.out + [Percent(100), ProjectLoaded])
      else s2
  }

  /** What client_task_completed does before it signals completion. `diskOk` is the outcome
    of writing the client's store. */
  function TaskEffect(s: State, i: nat, ok: bool, diskOk: bool): State
    requires i < |s.clients|
  {
    var c := s.clients[i];
    match c.kind
    case SaveDataSet => if ok && diskOk then s.(clients := s.clients[i := c.(saved := true)]) else s
    case SaveFile => if ok then s.(clients := s.clients[i := c.(saved := true)]) else s
    case RestoreFile => if ok then Satisfy(s, c.id) else s
    case RestoreDataSet => if ok then Satisfy(s, c.id) else s
    case NoTask => s
  }

  function ClearTask(s: State, i: nat): State
    requires i < |s.clients|
  {
    s.(clients := s.clients[i := s.clients[i].(pending := 0, kind := NoTask, progress := 0)])
  }

  /** client_task_completed */
  function TaskCompleted(s: State, i: nat, ok: bool, diskOk: bool): State
    requires i < |s.clients|
  {
    if s.clients[i].kind.NoTask? then ClearTask(s, i)
    else ClearTask(ProjectTaskCompleted(TaskEffect(s, i, ok, diskOk), i), i)
  }

  /** client_task_progressed */
  function TaskProgressed(s: State, i: nat, percentage: nat, diskOk: bool): State
    requires i < |s.clients|
  {
    if percentage == 0 then TaskCompleted(s, i, false, diskOk)
    else if percentage == 255 then TaskCompleted(s, i, true, diskOk)
    else if percentage <= s.clients[i].progress then s
    else ClientProgress(s, i, if percentage > 99 then 99 else percentage)
  }

  // ------------------------------------------------------------------ saving

  function BeginSave(c: Client, task: nat): Client {
    if !c.caps.HasInternalState() then c
    else c.(pending := task, kind := if c.caps.configFile then SaveFile else SaveDataSet, progress := 0)
  }

  function BeginSaveAll(cs: seq<Client>, task: nat): seq<Client> {
    if cs == [] then [] else BeginSaveAll(cs[..|cs| - 1], task) + [BeginSave(cs[|cs| - 1], task)]
  }

  function CountInternal(cs: seq<Client>): nat {
    if cs == [] then 0
    else CountInternal(cs[..|cs| - 1]) + if cs[|cs| - 1].caps.HasInternalState() then 1 else 0
  }

  predicate SomePending(cs: seq<Client>) {
    exists k :: 0 <= k < |cs| && cs[k].pending != 0
  }

  /** project_save_clients */
  function SaveClients(s: State): State {
    if SomePending(s.clients) then s
    else
      var task := s.taskIter + 1;
      var total := CountInternal(s.clients) % U32;
      s.(clients := BeginSaveAll(s.clients, task),
         task := if total == 0 then Idle else Saving,
         total := total, pending := total, progress := 0,
         taskIter := task,
         out := s.out + [SaveRequest(task)])
  }

  /** project_save: refused while a task runs; lost clients are forgotten. */
  function Save(s: State): State {
    if s.task != Idle then s
    else
      var s1 := SaveClients(s.(out := s.out + [Percent(0)])).(lost := []);
      if s1.total == 0 then s1.(out := s1.out + [Percent(100), ProjectSaved]) else s1
  }

  // ------------------------------------------------------------------ connecting

  /** A resumed client has nothing to load and completes as soon as it appears. */
  predicate Stateless(c: Client) {
    !c.saved || !c.caps.HasInternalState()
  }

  /** A resumed client is sent its state and must report back. */
  predicate Loads(c: Client) {
    c.saved && (c.caps.configFile || (c.caps.dataSet && c.caps.storeReady))
  }

  /** A resumed client whose saved data set is missing or empty gets no task at all. */
  predicate Silent(c: Client) {
    !Stateless(c) && !Loads(c)
  }

  /** The resumed client itself, with the task id it is given if it loads. */
  function ResumedClient(c: Client, name: nat, task: nat): Client {
    var c1 := c.(name := name, restored := true);
    if Stateless(c) then c1
    else if c.caps.configFile then c1.(pending := task, kind := RestoreFile, progress := 0)
    else if c.caps.storeReady then c1.(hasStore := true, pending := task, kind := RestoreDataSet, progress := 0)
    else c1.(hasStore := true)
  }

  /** client_resume_project for the client at position `j` of the lost list. */
  function Resume(s: State, j: nat, name: nat): State
    requires j < |s.lost|
  {
    var c := s.lost[j];
    var task := s.taskIter + 1;
    var s1 := s.(lost := s.lost[..j] + s.lost[j + 1..],
                 clients := [ResumedClient(c, name, task)] + s.clients);
    if Loads(c) then s1.(taskIter := task, out := s1.out + [LoadRequest(c.id, task)])
    else if Stateless(c) then
      var s2 := ProjectTaskCompleted(s1.(clients := s1.clients[0 := s1.clients[0].(kind := RestoreDataSet)]), 0);
      s2.(clients := s2.clients[0 := s2.clients[0].(kind := NoTask)])
    else s1
  }

  function NewClient(id: Id, caps: Caps, pid: nat, name: nat): Client {
    Client(id, caps, false, false, caps.dataSet, name, pid, [], [], 0, NoTask, 0)
  }

  /** server_add_client: a client the daemon launched resumes, any other one is new. */
  function AddClient(s: State, pid: nat, name: nat, id: Id, caps: Caps): State {
    var j := IndexByPid(s.lost, pid);
    if pid != 0 && j < |s.lost| then Resume(s, j, name)
    else s.(clients := [NewClient(id, caps, pid, name)] + s.clients)
  }

  // ------------------------------------------------------------------ messages

  /** The data set argument of a CommitDataSet call. */
  datatype Payload = NotAnArray | EmptyArray | Configs(valid: bool)

  datatype Step =
    | Connect(pid: nat, name: nat, id: Id, caps: Caps)
    | Report(name: nat, task: nat, percentage: nat, diskOk: bool)
    | Commit(name: nat, task: nat, payload: Payload, diskOk: bool)
    | SaveProject

  /** check_tasks */
  predicate Accepts(c: Client, task: nat) {
    c.pending != 0 && c.pending == task
  }

  /** A report of success by a client whose data set should be written to a store it does not have:
    the daemon follows a null pointer. */
  predicate Dies(s: State, name: nat, task: nat, percentage: nat) {
    var i := IndexByName(s.clients, name);
    && i < |s.clients| && Accepts(s.clients[i], task)
    && s.clients[i].kind.SaveDataSet? && percentage == 255 && !s.clients[i].hasStore
  }

  function Next(s: State, step: Step): State {
    match step
    case Connect(pid, name, id, caps) => AddClient(s, pid, name, id, caps)
    case SaveProject => Save(s)
    case Report(name, task, percentage, diskOk) =>
      var i := IndexByName(s.clients, name);
      if i < |s.clients| && Accepts(s.clients[i], task) then TaskProgressed(s, i, percentage, diskOk) else s
    case Commit(name, task, payload, diskOk) =>
      var i := IndexByName(s.clients, name);
      if i < |s.clients| && Accepts(s.clients[i], task) && s.clients[i].hasStore && payload.Configs?
      then TaskCompleted(s, i, payload.valid, diskOk) else s
  }

  function Run(s: State, steps: seq<Step>): State {
    if steps == [] then s else Next(Run(s, steps[..|steps| - 1]), steps[|steps| - 1])
  }

  // ------------------------------------------------------------------ the list passes, position by position

  lemma {:induction false} SatisfyAllAt(cs: seq<Client>, id: Id, forks: map<Id, nat>)
    ensures |SatisfyAll(cs, id, forks)| == |cs|
    ensures forall k :: 0 <= k < |cs| ==> SatisfyAll(cs, id, forks)[k] == SatisfyOne(cs[k], id, forks)
    ensures forall g <- SatisfySignals(cs, id) :: g.Launch?
  {
    if cs != [] { SatisfyAllAt(cs[..|cs| - 1], id, forks); }
  }

  lemma {:induction false} PrepareAllAt(cs: seq<Client>, all: seq<Client>, forks: map<Id, nat>)
    ensures |PrepareAll(cs, all, forks)| == |cs|
    ensures forall k :: 0 <= k < |cs| ==> PrepareAll(cs, all, forks)[k] == PrepareOne(cs[k], all, forks)
    ensures forall g <- PrepareSignals(cs, all) :: g.Launch?
  {
    if cs != [] { PrepareAllAt(cs[..|cs| - 1], all, forks); }
  }

  lemma {:induction false} BeginSaveAllAt(cs: seq<Client>, task: nat)
    ensures |BeginSaveAll(cs, task)| == |cs|
    ensures forall k :: 0 <= k < |cs| ==> BeginSaveAll(cs, task)[k] == BeginSave(cs[k], task)
  {
    if cs != [] { BeginSaveAllAt(cs[..|cs| - 1], task); }
  }

  lemma ReverseEmpty(s: seq<Id>)
    ensures Reverse(s) == [] <==> s == []
  {
  }
}
