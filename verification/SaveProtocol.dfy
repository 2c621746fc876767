/** One save, from the request to the ProjectSaved signal, under arbitrary delivery of reports.

  The network is a list of messages in delivery order. Nothing is assumed about where a
  message comes from, so delayed, duplicated and reordered reports are all covered. Clients
  may connect meanwhile, and further save requests may arrive and be refused. */
module SaveProtocol {
  import opened SessionSpec
  import opened TaskAccounting

  predicate IsDelivery(m: Step) {
    m.Report? || m.Commit?
  }

  /** Message `m` ends task `task` for client `c`. */
  predicate Ends(c: Client, m: Step, task: nat) {
    match m
    case Report(name, id, percentage, _) => name == c.name && id == task && (percentage == 0 || percentage == 255)
    case Commit(name, id, payload, _) => name == c.name && id == task && c.hasStore && payload.Configs?
    case Connect(_, _, _, _) => false
    case SaveProject => false
  }

  predicate Reported(c: Client, ms: seq<Step>, task: nat) {
    exists k :: 0 <= k < |ms| && Ends(c, ms[k], task)
  }

  /** The client has been asked to save and has not answered. */
  predicate Outstanding(c: Client, ms: seq<Step>, task: nat) {
    c.caps.HasInternalState() && !Reported(c, ms, task)
  }

  /** Message `m` says that the client's state is safely stored. */
  predicate Succeeds(c: Client, m: Step) {
    match m
    case Report(_, _, percentage, diskOk) => percentage == 255 && (c.caps.configFile || diskOk)
    case Commit(_, _, payload, diskOk) => payload.Configs? && payload.valid && (c.caps.configFile || diskOk)
    case Connect(_, _, _, _) => false
    case SaveProject => false
  }

  /** The first message that ends the task decides whether the client counts as saved. */
  predicate SavedBy(c: Client, ms: seq<Step>, task: nat) {
    if ms == [] then false
    else if Reported(c, ms[..|ms| - 1], task) then SavedBy(c, ms[..|ms| - 1], task)
    else Ends(c, ms[|ms| - 1], task) && Succeeds(c, ms[|ms| - 1])
  }

  lemma ReportedAppend(c: Client, ms: seq<Step>, m: Step, task: nat)
    ensures Reported(c, ms + [m], task) <==> Reported(c, ms, task) || Ends(c, m, task)
  {
    assert forall k :: 0 <= k < |ms| ==> (ms + [m])[k] == ms[k];
    assert (ms + [m])[|ms|] == m;
  }

  /** Client `c` of the saved project is now `d`. */
  predicate Follows(c: Client, d: Client, ms: seq<Step>, task: nat) {
    && d.name == c.name && d.caps == c.caps && d.hasStore == c.hasStore && d.id == c.id
    && d.pending == (if Outstanding(c, ms, task) then task else 0)
    && (d.pending != 0 ==> d.kind == if c.caps.configFile then SaveFile else SaveDataSet)
    && d.saved == (c.saved || (c.caps.HasInternalState() && SavedBy(c, ms, task)))
  }

  predicate AllReported(cs: seq<Client>, ms: seq<Step>, task: nat) {
    forall k :: 0 <= k < |cs| ==> !Outstanding(cs[k], ms, task)
  }

  /** The last `n` clients of a list: those that were there before anybody else connected. */
  function Olds(n: nat, ds: seq<Client>): seq<Client>
    requires n <= |ds|
  {
    ds[|ds| - n..]
  }

  /** Whoever has connected since owes nothing. */
  predicate NewcomersIdle(n: nat, ds: seq<Client>)
    requires n <= |ds|
  {
    forall k :: 0 <= k < |ds| - n ==> ds[k].pending == 0
  }

  /** The clients `ds` of a save that began with `cs`, after the steps `ms`. */
  predicate Tracked(cs: seq<Client>, ds: seq<Client>, ms: seq<Step>, task: nat) {
    |cs| <= |ds| && AllFollow(cs, Olds(|cs|, ds), ms, task) && NewcomersIdle(|cs|, ds)
  }

  /** The save of `s` has reached state `r` after the steps `ms`. */
  predicate Tracks(s: State, ms: seq<Step>, r: State) {
    var task := s.taskIter + 1;
    && Tracked(s.clients, r.clients, ms, task)
    && r.taskIter == task && r.lost == []
    && (r.task == Idle <==> AllReported(s.clients, ms, task))
    && Count(r.out, ProjectSaved) == Count(s.out, ProjectSaved) + (if r.task == Idle then 1 else 0)
    && Count(r.out, ProjectLoaded) == Count(s.out, ProjectLoaded)
  }

  /** No other save is accepted during these steps; requests that come too early are refused. */
  predicate OneSave(s: State, ms: seq<Step>) {
    ms == [] ||
    (var init := ms[..|ms| - 1];
     OneSave(s, init) && (ms[|ms| - 1].SaveProject? ==> Run(s, init).task != Idle))
  }

  // ------------------------------------------------------------------ one message

  /** A message that carries another task id than the addressed client's, or none, changes nothing. */
  lemma StaleMessage(s: State, m: Step)
    requires IsDelivery(m)
    requires forall k :: 0 <= k < |s.clients| && s.clients[k].name == m.name ==>
               s.clients[k].pending == 0 || s.clients[k].pending != m.task
    ensures Next(s, m) == s
  {
  }

  /** Task ids strictly increase, so whatever was sent before a save is stale for ever after. */
  lemma EarlierMessagesAreStale(s: State, ms: seq<Step>, r: State, m: Step)
    requires Tracks(s, ms, r) && IsDelivery(m) && m.task <= s.taskIter
    ensures Next(r, m) == r
  {
    StaleMessage(r, m);
  }

  lemma {:induction false} SavedByReported(c: Client, ms: seq<Step>, task: nat)
    requires SavedBy(c, ms, task)
    ensures Reported(c, ms, task)
  {
    if Reported(c, ms[..|ms| - 1], task) {
      var k :| 0 <= k < |ms| - 1 && Ends(c, ms[..|ms| - 1][k], task);
      assert Ends(c, ms[k], task);
    }
  }

  /** What one more message may do to a client that stood at `d`. */
  predicate Moves(c: Client, d: Client, e: Client, ms: seq<Step>, m: Step, task: nat) {
    && e == d.(pending := e.pending, kind := e.kind, saved := e.saved, progress := e.progress)
    && (e.pending != 0 ==> e.kind == d.kind)
    && if Outstanding(c, ms, task) && Ends(c, m, task)
       then e.pending == 0 && e.saved == (d.saved || Succeeds(c, m))
       else e.pending == d.pending && e.saved == d.saved
  }

  lemma FollowsAppend(c: Client, d: Client, e: Client, ms: seq<Step>, m: Step, task: nat)
    requires Follows(c, d, ms, task) && Moves(c, d, e, ms, m, task)
    ensures Follows(c, e, ms + [m], task)
  {
    ReportedAppend(c, ms, m, task);
    assert (ms + [m])[..|ms|] == ms;
    if SavedBy(c, ms, task) { SavedByReported(c, ms, task); }
  }

  predicate AllFollow(cs: seq<Client>, ds: seq<Client>, ms: seq<Step>, task: nat) {
    |ds| == |cs| && forall k :: 0 <= k < |cs| ==> Follows(cs[k], ds[k], ms, task)
  }

  predicate AllMove(cs: seq<Client>, ds: seq<Client>, es: seq<Client>, ms: seq<Step>, m: Step, task: nat) {
    |cs| == |ds| == |es| && forall k :: 0 <= k < |cs| ==> Moves(cs[k], ds[k], es[k], ms, m, task)
  }

  lemma AllFollowAppend(cs: seq<Client>, ds: seq<Client>, es: seq<Client>, ms: seq<Step>, m: Step, task: nat)
    requires AllFollow(cs, ds, ms, task) && AllMove(cs, ds, es, ms, m, task)
    ensures AllFollow(cs, es, ms + [m], task)
  {
    forall k | 0 <= k < |cs|
      ensures Follows(cs[k], es[k], ms + [m], task)
    {
      FollowsAppend(cs[k], ds[k], es[k], ms, m, task);
    }
  }

  /** The project is idle again exactly when every asked client has reported. */
  lemma IdleIffAllReported(s: State, ms: seq<Step>, r: State)
    requires Inv(r) && r.task != Loading && Tracked(s.clients, r.clients, ms, s.taskIter + 1)
    ensures r.task == Idle <==> AllReported(s.clients, ms, s.taskIter + 1)
  {
    var o := |r.clients| - |s.clients|;
    if r.task == Idle {
      forall k | 0 <= k < |s.clients|
        ensures !Outstanding(s.clients[k], ms, s.taskIter + 1)
      {
        var d := r.clients[o + k];
        assert d == Olds(|s.clients|, r.clients)[k];
        assert ClientOk(Idle, r.taskIter, d) && Follows(s.clients[k], d, ms, s.taskIter + 1);
      }
    } else if AllReported(s.clients, ms, s.taskIter + 1) {
      forall c <- r.clients
        ensures Owes(c) == 0
      {
        var j :| 0 <= j < |r.clients| && r.clients[j] == c;
        if j >= o {
          assert c == Olds(|s.clients|, r.clients)[j - o];
          assert Follows(s.clients[j - o], c, ms, s.taskIter + 1);
        }
      }
      SumZero(Owes, r.clients);
      assert false;
    }
  }

  /** A message that ends nothing is refused, or at most moves one client's percentage. */
  lemma QuietShape(r: State, m: Step) returns (t: State)
    requires IsDelivery(m)
    requires var i := IndexByName(r.clients, m.name);
             i < |r.clients| && Accepts(r.clients[i], m.task) ==> !Ends(r.clients[i], m, m.task)
    ensures t == Next(r, m)
    ensures t == r.(clients := t.clients, progress := t.progress, out := t.out) && |t.clients| == |r.clients|
    ensures forall k :: 0 <= k < |r.clients| ==> t.clients[k] == r.clients[k].(progress := t.clients[k].progress)
    ensures Count(t.out, ProjectSaved) == Count(r.out, ProjectSaved)
    ensures Count(t.out, ProjectLoaded) == Count(r.out, ProjectLoaded)
  {
    t := Next(r, m);
    if t != r {
      var i := IndexByName(r.clients, m.name);
      var percentage := if m.percentage > 99 then 99 else m.percentage;
      assert t == ClientProgress(r, i, percentage);
      ClientProgressCounts(r, i, percentage, ProjectSaved);
      ClientProgressCounts(r, i, percentage, ProjectLoaded);
    }
  }

  /** Step `m` ends nobody's open task. */
  predicate EndsNothing(cs: seq<Client>, ms: seq<Step>, m: Step, task: nat) {
    forall k :: 0 <= k < |cs| ==> Outstanding(cs[k], ms, task) ==> !Ends(cs[k], m, task)
  }

  lemma QuietMoves(cs: seq<Client>, ds: seq<Client>, es: seq<Client>, ms: seq<Step>, m: Step, task: nat)
    requires AllFollow(cs, ds, ms, task) && EndsNothing(cs, ms, m, task)
    requires |es| == |ds| && forall k :: 0 <= k < |ds| ==> es[k] == ds[k].(progress := es[k].progress)
    ensures AllMove(cs, ds, es, ms, m, task)
  {
    forall k | 0 <= k < |cs|
      ensures Moves(cs[k], ds[k], es[k], ms, m, task)
    {
      assert Follows(cs[k], ds[k], ms, task);
    }
  }

  /** Steps that end nothing leave everybody's expectations as they were. */
  lemma QuietTracked(cs: seq<Client>, ds: seq<Client>, es: seq<Client>, ms: seq<Step>, m: Step, task: nat)
    requires Tracked(cs, ds, ms, task) && EndsNothing(cs, ms, m, task)
    requires |es| == |ds| && forall k :: 0 <= k < |ds| ==> es[k] == ds[k].(progress := es[k].progress)
    ensures Tracked(cs, es, ms + [m], task)
  {
    var olds, olds' := Olds(|cs|, ds), Olds(|cs|, es);
    assert forall k :: 0 <= k < |cs| ==> olds[k] == ds[|ds| - |cs| + k] && olds'[k] == es[|ds| - |cs| + k];
    QuietMoves(cs, olds, olds', ms, m, task);
    hide AllFollow, EndsNothing;
    AllFollowAppend(cs, olds, olds', ms, m, task);
  }

  /** What a client of the list stands for if it has an open task. */
  lemma OpenTask(cs: seq<Client>, ds: seq<Client>, ms: seq<Step>, task: nat, i: nat) returns (k: nat)
    requires Tracked(cs, ds, ms, task) && i < |ds| && ds[i].pending != 0
    ensures k < |cs| && i == |ds| - |cs| + k && Follows(cs[k], ds[i], ms, task)
    ensures Outstanding(cs[k], ms, task) && ds[i].pending == task
  {
    k := i - (|ds| - |cs|);
    assert ds[i] == Olds(|cs|, ds)[k];
  }

  /** A message nobody accepts, or that ends nothing for the one who does, ends nothing. */
  lemma DeliveryEndsNothing(cs: seq<Client>, ds: seq<Client>, ms: seq<Step>, m: Step, task: nat)
    requires Tracked(cs, ds, ms, task) && task > 0 && DistinctNames(ds) && IsDelivery(m)
    requires var i := IndexByName(ds, m.name);
             i < |ds| && Accepts(ds[i], m.task) ==> !Ends(ds[i], m, m.task)
    ensures EndsNothing(cs, ms, m, task)
  {
    forall k | 0 <= k < |cs| && Outstanding(cs[k], ms, task)
      ensures !Ends(cs[k], m, task)
    {
      var j := |ds| - |cs| + k;
      assert ds[j] == Olds(|cs|, ds)[k];
      assert Follows(cs[k], ds[j], ms, task);
      if cs[k].name == m.name {
        assert IndexByName(ds, m.name) == j;
      }
    }
  }

  lemma TracksNext(s: State, ms: seq<Step>, r: State, m: Step, t: State)
    requires Tracks(s, ms, r) && Tracked(s.clients, t.clients, ms + [m], s.taskIter + 1)
    requires Inv(t) && t.task != Loading && t.taskIter == r.taskIter && t.lost == []
    requires r.task == Idle ==> t.task == Idle
    requires Count(t.out, ProjectSaved)
             == Count(r.out, ProjectSaved) + if r.task != Idle && t.task == Idle then 1 else 0
    requires Count(t.out, ProjectLoaded) == Count(r.out, ProjectLoaded)
    ensures Tracks(s, ms + [m], t)
  {
    hide Tracked, Inv;
    IdleIffAllReported(s, ms + [m], t);
  }

  lemma QuietDelivery(s: State, ms: seq<Step>, r: State, m: Step)
    requires Inv(r) && Tracks(s, ms, r) && IsDelivery(m) && Allowed(r, m)
    requires var i := IndexByName(r.clients, m.name);
             i < |r.clients| && Accepts(r.clients[i], m.task) ==> !Ends(r.clients[i], m, m.task)
    requires r.task != Loading
    ensures Tracks(s, ms + [m], Next(r, m)) && Next(r, m).task != Loading
  {
    hide Next, Inv, Allowed, Tracked, AllReported;
    InvNames(r);
    NextKeeps(r, m);
    DeliveryEndsNothing(s.clients, r.clients, ms, m, s.taskIter + 1);
    var t := QuietShape(r, m);
    QuietTracked(s.clients, r.clients, t.clients, ms, m, s.taskIter + 1);
    TracksNext(s, ms, r, m, t);
  }

  /** A client that connects during a save takes no part in it. */
  lemma ConnectTracks(s: State, ms: seq<Step>, r: State, m: Step)
    requires Inv(r) && Tracks(s, ms, r) && m.Connect? && Allowed(r, m) && r.task != Loading
    ensures Tracks(s, ms + [m], Next(r, m)) && Next(r, m).task != Loading
  {
    hide Inv, Allowed, AllReported, AllFollow;
    var t := AddClient(r, m.pid, m.name, m.id, m.caps);
    assert t == r.(clients := [NewClient(m.id, m.caps, m.pid, m.name)] + r.clients);
    assert Olds(|s.clients|, t.clients) == Olds(|s.clients|, r.clients);
    NextKeeps(r, m);
    QuietTracked(s.clients, r.clients, r.clients, ms, m, s.taskIter + 1);
    TracksNext(s, ms, r, m, t);
  }

  /** A second request during a save is refused. */
  lemma RefusedTracks(s: State, ms: seq<Step>, r: State)
    requires Inv(r) && Tracks(s, ms, r) && r.task == Saving
    ensures Next(r, SaveProject) == r && Tracks(s, ms + [SaveProject], r)
  {
    hide Inv, Tracked, AllReported;
    QuietTracked(s.clients, r.clients, r.clients, ms, SaveProject, s.taskIter + 1);
    TracksNext(s, ms, r, SaveProject, r);
  }

  /** A saving client's completion, field by field. */
  lemma CompletedLost(r: State, i: nat, ok: bool, diskOk: bool)
    requires i < |r.clients| && r.clients[i].kind.IsSave()
    ensures TaskCompleted(r, i, ok, diskOk).lost == r.lost
  {
  }

  lemma SavingCompletion(r: State, i: nat, ok: bool, diskOk: bool) returns (d: Client)
    requires Inv(r) && r.task == Saving && i < |r.clients| && r.clients[i].pending != 0
    ensures d == r.clients[i].(pending := 0, kind := NoTask, progress := 0,
                               saved := r.clients[i].saved || (ok && (r.clients[i].kind == SaveFile || diskOk)))
    ensures var t := TaskCompleted(r, i, ok, diskOk);
            && Inv(t) && t.clients == r.clients[i := d] && t.lost == r.lost
            && t.taskIter == r.taskIter && t.task != Loading
            && Count(t.out, ProjectSaved) == Count(r.out, ProjectSaved) + (if t.task == Idle then 1 else 0)
            && Count(t.out, ProjectLoaded) == Count(r.out, ProjectLoaded)
  {
    hide TaskCompleted, TaskEffect;
    SavingEffect(r, i, ok, diskOk);
    d := CompletedFields(r, i, ok, diskOk);
    CompletedLost(r, i, ok, diskOk);
    TaskCompletedKeeps(r, i, ok, diskOk);
    TaskCompletedCounts(r, i, ok, diskOk, ProjectSaved);
    TaskCompletedCounts(r, i, ok, diskOk, ProjectLoaded);
  }

  lemma EndingMoves(cs: seq<Client>, ds: seq<Client>, i: nat, e: Client, ms: seq<Step>, m: Step, ok: bool, task: nat)
    requires AllFollow(cs, ds, ms, task) && task > 0 && IsDelivery(m)
    requires forall j, k :: 0 <= j < k < |ds| ==> ds[j].name != ds[k].name
    requires i < |ds| && ds[i].pending == task && Ends(cs[i], m, task)
    requires ok == if m.Report? then m.percentage == 255 else m.payload.valid
    requires e == ds[i].(pending := 0, kind := NoTask, progress := 0,
                         saved := ds[i].saved || (ok && (ds[i].kind == SaveFile || m.diskOk)))
    ensures AllMove(cs, ds, ds[i := e], ms, m, task)
  {
    forall k | 0 <= k < |cs|
      ensures Moves(cs[k], ds[k], ds[i := e][k], ms, m, task)
    {
      assert Follows(cs[k], ds[k], ms, task) && Follows(cs[i], ds[i], ms, task);
      assert k != i ==> ds[k].name != ds[i].name;
    }
  }

  lemma EndingTracked(cs: seq<Client>, ds: seq<Client>, i: nat, e: Client, ms: seq<Step>, m: Step, ok: bool, task: nat)
    requires Tracked(cs, ds, ms, task) && task > 0 && DistinctNames(ds) && IsDelivery(m)
    requires i < |ds| && ds[i].pending == task && Ends(ds[i], m, task)
    requires ok == if m.Report? then m.percentage == 255 else m.payload.valid
    requires e == ds[i].(pending := 0, kind := NoTask, progress := 0,
                         saved := ds[i].saved || (ok && (ds[i].kind == SaveFile || m.diskOk)))
    ensures Tracked(cs, ds[i := e], ms + [m], task)
  {
    var o, olds := |ds| - |cs|, Olds(|cs|, ds);
    var k := OpenTask(cs, ds, ms, task, i);
    assert forall j :: 0 <= j < |cs| ==> olds[j] == ds[o + j];
    EndingMoves(cs, olds, k, e, ms, m, ok, task);
    assert Olds(|cs|, ds[i := e]) == olds[k := e];
    hide AllFollow, Ends, DistinctNames;
    AllFollowAppend(cs, olds, olds[k := e], ms, m, task);
  }

  lemma EndingDelivery(s: State, ms: seq<Step>, r: State, i: nat, m: Step, ok: bool)
    requires Inv(r) && Tracks(s, ms, r) && IsDelivery(m) && r.task == Saving
    requires i < |r.clients| && r.clients[i].pending == s.taskIter + 1 && Ends(r.clients[i], m, s.taskIter + 1)
    requires ok == if m.Report? then m.percentage == 255 else m.payload.valid
    ensures Tracks(s, ms + [m], TaskCompleted(r, i, ok, m.diskOk)) && TaskCompleted(r, i, ok, m.diskOk).task != Loading
  {
    hide TaskCompleted, Tracked, Inv, Ends, AllReported, DistinctNames;
    InvNames(r);
    var t, task := TaskCompleted(r, i, ok, m.diskOk), s.taskIter + 1;
    var d := SavingCompletion(r, i, ok, m.diskOk);
    EndingTracked(s.clients, r.clients, i, d, ms, m, ok, task);
    TracksNext(s, ms, r, m, t);
  }

  lemma DeliveryTracks(s: State, ms: seq<Step>, r: State, m: Step)
    requires Inv(r) && Tracks(s, ms, r) && IsDelivery(m) && Allowed(r, m) && r.task != Loading
    ensures Tracks(s, ms + [m], Next(r, m)) && Next(r, m).task != Loading
  {
    hide Inv, TaskCompleted, TaskProgressed, AllReported;
    var i := IndexByName(r.clients, m.name);
    if i < |r.clients| && Accepts(r.clients[i], m.task) && Ends(r.clients[i], m, m.task) {
      var ok := if m.Report? then m.percentage == 255 else m.payload.valid;
      var k := OpenTask(s.clients, r.clients, ms, s.taskIter + 1, i);
      EndingTask(r, i);
      EndedBy(r, i, m, ok);
      EndingDelivery(s, ms, r, i, m, ok);
    } else {
      QuietDelivery(s, ms, r, m);
    }
  }

  lemma EndingTask(r: State, i: nat)
    requires Inv(r) && i < |r.clients| && r.clients[i].pending != 0 && r.task != Loading
    ensures r.task == Saving && DistinctNames(r.clients)
  {
    assert ClientOk(r.task, r.taskIter, r.clients[i]);
  }

  lemma EndedBy(r: State, i: nat, m: Step, ok: bool)
    requires IsDelivery(m) && i == IndexByName(r.clients, m.name) < |r.clients| && Accepts(r.clients[i], m.task)
    requires Ends(r.clients[i], m, m.task)
    requires ok == if m.Report? then m.percentage == 255 else m.payload.valid
    ensures Next(r, m) == TaskCompleted(r, i, ok, m.diskOk)
  {
    hide TaskCompleted;
  }

  lemma StartFollows(c: Client, d: Client, task: nat)
    requires task > 0 && ClientOk(Idle, task - 1, c) && d == BeginSave(c, task)
    ensures Follows(c, d, [], task)
  {
  }

  lemma SaveSignals(out: seq<Signal>, task: nat, tail: seq<Signal>)
    requires tail == [] || tail == [Percent(100), ProjectSaved]
    ensures var r := out + [Percent(0)] + [SaveRequest(task)] + tail;
            && Count(r, ProjectSaved) == Count(out, ProjectSaved) + (if tail == [] then 0 else 1)
            && Count(r, ProjectLoaded) == Count(out, ProjectLoaded)
  {
  }

  lemma SaveFollows(cs: seq<Client>, task: nat)
    requires task > 0 && ClientsOk(Idle, task - 1, cs)
    ensures AllFollow(cs, BeginSaveAll(cs, task), [], task)
  {
    BeginSaveAllAt(cs, task);
    hide Follows, BeginSaveAll;
    forall k | 0 <= k < |cs|
      ensures Follows(cs[k], BeginSaveAll(cs, task)[k], [], task)
    {
      assert ClientOk(Idle, task - 1, cs[k]);
      StartFollows(cs[k], BeginSaveAll(cs, task)[k], task);
    }
  }

  lemma SaveTracked(s: State)
    requires SaveReady(s)
    ensures Tracked(s.clients, BeginSaveAll(s.clients, s.taskIter + 1), [], s.taskIter + 1)
  {
    var ds := BeginSaveAll(s.clients, s.taskIter + 1);
    SaveFollows(s.clients, s.taskIter + 1);
    hide AllFollow, BeginSaveAll;
    assert |ds| == |s.clients| by { BeginSaveAllAt(s.clients, s.taskIter + 1); }
    assert Olds(|s.clients|, ds) == ds;
  }

  lemma SaveStarts(s: State)
    requires SaveReady(s)
    ensures Inv(Save(s)) && Save(s).task != Loading
    ensures Tracks(s, [], Save(s))
  {
    hide Save, Tracked, Inv, AllReported;
    var r := Save(s);
    SaveKeeps(s);
    SaveFields(s);
    SaveTracked(s);
    SaveSignals(s.out, s.taskIter + 1, if r.total == 0 then [Percent(100), ProjectSaved] else []);
    hide Count;
    IdleIffAllReported(s, [], r);
  }

  lemma StepTracks(s: State, ms: seq<Step>, r: State, m: Step)
    requires Inv(r) && Tracks(s, ms, r) && Allowed(r, m) && r.task != Loading
    requires m.SaveProject? ==> r.task != Idle
    ensures Inv(Next(r, m)) && Tracks(s, ms + [m], Next(r, m)) && Next(r, m).task != Loading
  {
    hide Next, Tracks, Inv;
    NextKeeps(r, m);
    match m
    case SaveProject => RefusedTracks(s, ms, r);
    case Connect(_, _, _, _) => ConnectTracks(s, ms, r, m);
    case Report(_, _, _, _) => DeliveryTracks(s, ms, r, m);
    case Commit(_, _, _, _) => DeliveryTracks(s, ms, r, m);
  }

  /** The whole save: whatever is delivered after the request, in whatever order and however
    often, and whoever connects meanwhile, a client's task is open exactly while no message ending
    it has arrived; the first such message decides whether the client counts as saved; and
    ProjectSaved is emitted exactly once, by the message that leaves nobody outstanding (at once if
    nobody was asked). */
  lemma {:induction false} SaveRun(s: State, ms: seq<Step>)
    requires SaveReady(s)
    requires AllowedRun(Save(s), ms) && OneSave(Save(s), ms)
    ensures Inv(Run(Save(s), ms)) && Run(Save(s), ms).task != Loading
    ensures Tracks(s, ms, Run(Save(s), ms))
  {
    hide Next, Tracks, Inv, Save, Allowed, SaveReady;
    if ms == [] {
      SaveStarts(s);
    } else {
      var init, m := ms[..|ms| - 1], ms[|ms| - 1];
      SaveRun(s, init);
      StepTracks(s, init, Run(Save(s), init), m);
      assert ms == init + [m];
    }
  }

  // ------------------------------------------------------------------ any number of saves

  /** The number of save requests that were not refused. */
  function AcceptedSaves(s: State, ms: seq<Step>): nat {
    if ms == [] then 0
    else
      var init := ms[..|ms| - 1];
      AcceptedSaves(s, init) + if ms[|ms| - 1].SaveProject? && Run(s, init).task == Idle then 1 else 0
  }

  function Open(s: State): nat {
    if s.task == Saving then 1 else 0
  }

  lemma SaveOpens(s: State)
    requires SaveReady(s)
    ensures Count(Save(s).out, ProjectSaved) + Open(Save(s)) == Count(s.out, ProjectSaved) + 1
  {
    hide Save;
    var r := Save(s);
    SaveFields(s);
    SaveSignals(s.out, s.taskIter + 1, if r.total == 0 then [Percent(100), ProjectSaved] else []);
  }

  lemma DeliveryCloses(r: State, m: Step)
    requires Inv(r) && r.task != Loading && IsDelivery(m) && Allowed(r, m)
    ensures Count(Next(r, m).out, ProjectSaved) + Open(Next(r, m)) == Count(r.out, ProjectSaved) + Open(r)
    ensures Next(r, m).task != Loading
  {
    hide Inv, TaskCompleted, TaskProgressed, Count;
    var i := IndexByName(r.clients, m.name);
    if i < |r.clients| && Accepts(r.clients[i], m.task) && Ends(r.clients[i], m, m.task) {
      var ok := if m.Report? then m.percentage == 255 else m.payload.valid;
      EndingTask(r, i);
      EndedBy(r, i, m, ok);
      var d := SavingCompletion(r, i, ok, m.diskOk);
    } else {
      hide Next;
      var t := QuietShape(r, m);
    }
  }

  lemma StepCounts(r: State, m: Step)
    requires Inv(r) && r.task != Loading && Allowed(r, m)
    ensures Next(r, m).task != Loading
    ensures Count(Next(r, m).out, ProjectSaved) + Open(Next(r, m))
            == Count(r.out, ProjectSaved) + Open(r) + if m.SaveProject? && r.task == Idle then 1 else 0
  {
    match m
    case SaveProject =>
      hide Save, Inv, Count;
      if r.task == Idle { IdleIsReady(r); SaveOpens(r); SaveFields(r); } else { assert Save(r) == r by { Refused(r); } }
    case Connect(pid, _, _, _) =>
      hide Resume, Inv, Count;
      if pid != 0 && IndexByPid(r.lost, pid) < |r.lost| { ResumesWhileLoading(r, pid); }
    case Report(_, _, _, _) => hide Next; DeliveryCloses(r, m);
    case Commit(_, _, _, _) => hide Next; DeliveryCloses(r, m);
  }

  lemma Refused(r: State)
    requires r.task != Idle
    ensures Save(r) == r
  {
  }

  /** Over every run: as many saves have been announced as were accepted, but for the one that may
    still be open. */
  lemma {:induction false} SavesAnnounced(s: State, ms: seq<Step>)
    requires Inv(s) && s.task != Loading && AllowedRun(s, ms)
    ensures var r := Run(s, ms);
            && r.task != Loading
            && Count(r.out, ProjectSaved) + Open(r) == Count(s.out, ProjectSaved) + Open(s) + AcceptedSaves(s, ms)
  {
    hide Next, Inv, Allowed, Count, Open;
    if ms != [] {
      var init := ms[..|ms| - 1];
      SavesAnnounced(s, init);
      RunKeeps(s, init);
      StepCounts(Run(s, init), ms[|ms| - 1]);
    }
  }

  // ------------------------------------------------------------------ who can be saved

  /** Client `c` has somewhere to put its state: a file of its own, or an open store. */
  predicate Storable(c: Client) {
    c.caps.configFile || c.hasStore
  }

  /** The run `ms` ends the save with everybody saved who was asked to. */
  ghost predicate SavesEverybody(s: State, ms: seq<Step>) {
    && AllowedRun(Save(s), ms) && OneSave(Save(s), ms) && Run(Save(s), ms).task == Idle
    && forall k :: 0 <= k < |s.clients| && s.clients[k].caps.HasInternalState() ==>
         SavedBy(s.clients[k], ms, s.taskIter + 1)
  }

  lemma StorelessClient(s: State, ms: seq<Step>, r: State, k: nat, m: Step)
    requires Tracks(s, ms, r) && Allowed(r, m) && k < |s.clients|
    requires !Storable(s.clients[k]) && Outstanding(s.clients[k], ms, s.taskIter + 1)
    ensures !(Ends(s.clients[k], m, s.taskIter + 1) && Succeeds(s.clients[k], m))
  {
    var d := r.clients[|r.clients| - |s.clients| + k];
    assert d == Olds(|s.clients|, r.clients)[k];
    assert Follows(s.clients[k], d, ms, s.taskIter + 1);
  }

  /** A client without a store never counts as saved: its data set is refused. */
  lemma {:induction false} NeverSaved(s: State, ms: seq<Step>, k: nat)
    requires SaveReady(s) && AllowedRun(Save(s), ms) && OneSave(Save(s), ms)
    requires k < |s.clients| && s.clients[k].caps.HasInternalState() && !Storable(s.clients[k])
    ensures !SavedBy(s.clients[k], ms, s.taskIter + 1)
  {
    hide SaveReady, Save, Inv, Next;
    if ms != [] {
      var init, m, c, task := ms[..|ms| - 1], ms[|ms| - 1], s.clients[k], s.taskIter + 1;
      NeverSaved(s, init, k);
      if !Reported(c, init, task) {
        SaveRun(s, init);
        hide Tracks, Allowed;
        StorelessClient(s, init, Run(Save(s), init), k, m);
      }
    }
  }

  function SuccessReport(c: Client, task: nat): Step {
    Report(c.name, task, 255, true)
  }

  /** Everybody reports success, in list order. */
  function SuccessReports(cs: seq<Client>, task: nat): seq<Step> {
    if cs == [] then [] else SuccessReports(cs[..|cs| - 1], task) + [SuccessReport(cs[|cs| - 1], task)]
  }

  lemma {:induction false} ReportsNobodyElse(cs: seq<Client>, c: Client, task: nat)
    requires forall k :: 0 <= k < |cs| ==> cs[k].name != c.name
    ensures !Reported(c, SuccessReports(cs, task), task)
  {
    if cs != [] {
      var init := cs[..|cs| - 1];
      ReportsNobodyElse(init, c, task);
      ReportedAppend(c, SuccessReports(init, task), SuccessReport(cs[|cs| - 1], task), task);
    }
  }

  lemma {:induction false} ReportsSave(cs: seq<Client>, k: nat, task: nat)
    requires k < |cs| && DistinctNames(cs)
    ensures SavedBy(cs[k], SuccessReports(cs, task), task)
  {
    var init, last := cs[..|cs| - 1], cs[|cs| - 1];
    var ms := SuccessReports(cs, task);
    assert ms[..|ms| - 1] == SuccessReports(init, task);
    if k == |cs| - 1 {
      ReportsNobodyElse(init, last, task);
    } else {
      ReportsSave(init, k, task);
      SavedByReported(cs[k], SuccessReports(init, task), task);
    }
  }

  /** These reports are allowed if every asked client has somewhere to put its state. */
  lemma {:induction false} ReportsAllowed(s: State, n: nat)
    requires SaveReady(s) && n <= |s.clients|
    requires AllStorable(s.clients)
    ensures var ms := SuccessReports(s.clients[..n], s.taskIter + 1);
            AllowedRun(Save(s), ms) && OneSave(Save(s), ms)
  {
    hide SaveReady, Save, Next, Allowed;
    if n > 0 {
      var task := s.taskIter + 1;
      var init, m := SuccessReports(s.clients[..n - 1], task), SuccessReport(s.clients[n - 1], task);
      ReportsAllowed(s, n - 1);
      assert s.clients[..n][..n - 1] == s.clients[..n - 1];
      assert (init + [m])[..|init|] == init;
      NextReportAllowed(s, init, s.clients[n - 1]);
    }
  }

  lemma NextReportAllowed(s: State, ms: seq<Step>, c: Client)
    requires SaveReady(s) && AllStorable(s.clients) && AllowedRun(Save(s), ms) && OneSave(Save(s), ms)
    ensures Allowed(Run(Save(s), ms), SuccessReport(c, s.taskIter + 1))
  {
    hide SaveReady, Save, Inv, Run, AllowedRun, OneSave;
    SaveRun(s, ms);
    var task, r := s.taskIter + 1, Run(Save(s), ms);
    forall j | 0 <= j < |r.clients| && Accepts(r.clients[j], task)
      ensures r.clients[j].kind.SaveDataSet? ==> r.clients[j].hasStore
    {
      var k := OpenTask(s.clients, r.clients, ms, task, j);
    }
  }

  predicate AllStorable(cs: seq<Client>) {
    forall k :: 0 <= k < |cs| && cs[k].caps.HasInternalState() ==> Storable(cs[k])
  }

  lemma AllSaved(cs: seq<Client>, task: nat)
    requires DistinctNames(cs)
    ensures AllReported(cs, SuccessReports(cs, task), task)
    ensures forall k :: 0 <= k < |cs| ==> SavedBy(cs[k], SuccessReports(cs, task), task)
  {
    hide SavedBy, Reported, SuccessReports;
    forall k | 0 <= k < |cs|
      ensures SavedBy(cs[k], SuccessReports(cs, task), task) && Reported(cs[k], SuccessReports(cs, task), task)
    {
      ReportsSave(cs, k, task);
      SavedByReported(cs[k], SuccessReports(cs, task), task);
    }
  }

  lemma SuccessReportsSave(s: State)
    requires SaveReady(s) && AllStorable(s.clients)
    ensures SavesEverybody(s, SuccessReports(s.clients, s.taskIter + 1))
  {
    assert s.clients[..|s.clients|] == s.clients && DistinctNames(s.clients);
    hide Save, Inv, SaveReady, SavedBy, Reported, Tracked, SuccessReports, AllStorable, DistinctNames, AllReported;
    hide AllowedRun, OneSave, Run, Count;
    ReportsAllowed(s, |s.clients|);
    SaveRun(s, SuccessReports(s.clients, s.taskIter + 1));
    AllSaved(s.clients, s.taskIter + 1);
  }

  /** A save can end with everybody saved who was asked to, exactly if each of them keeps its state
    in a file or has an open store. A resumed client whose data set was never saved has neither. */
  lemma EverybodySavedExactlyWhen(s: State)
    requires SaveReady(s)
    ensures (exists ms :: SavesEverybody(s, ms)) <==> AllStorable(s.clients)
  {
    if ms :| SavesEverybody(s, ms) {
      forall k | 0 <= k < |s.clients| && s.clients[k].caps.HasInternalState()
        ensures Storable(s.clients[k])
      {
        if !Storable(s.clients[k]) { NeverSaved(s, ms, k); }
      }
    }
    hide SavesEverybody, SaveReady;
    if AllStorable(s.clients) { SuccessReportsSave(s); }
  }

  /** Outside the runs above, a save that meets a client with an open task asks nobody, and is still
    announced as done; with no task of its own under way that is the only way to get there. */
  lemma SavedWithoutAskingExactlyWhen(s: State)
    requires s.task == Idle && s.total == 0
    ensures Save(s).out == s.out + [Percent(0), Percent(100), ProjectSaved] <==> SomePending(s.clients)
  {
    var n, done := |s.out|, s.out + [Percent(0), Percent(100), ProjectSaved];
    if SomePending(s.clients) {
      assert Save(s).out == s.out + [Percent(0)] + [Percent(100), ProjectSaved] == done;
    } else {
      assert Save(s).out[n + 1] == SaveRequest(s.taskIter + 1);
      assert done[n + 1] == Percent(100);
    }
  }

  /** A controller has the lost client at `j` launched, although no restore is under way. */
  function LaunchedByHand(s: State, j: nat, pid: nat): State
    requires j < |s.lost|
  {
    s.(lost := s.lost[j := s.lost[j].(pid := pid)], out := s.out + [Launch(s.lost[j].id)])
  }

  /** How that comes about: a client with something to load is launched by hand into an idle project and
    connects. The save that follows asks nobody, and is announced. */
  lemma SavedWithoutAskingRun(s: State, j: nat, pid: nat, name: nat)
    requires s.task == Idle && s.total == 0 && j < |s.lost| && Loads(s.lost[j])
    requires pid != 0 && forall k :: 0 <= k < |s.lost| ==> s.lost[k].pid != pid
    ensures var t := Next(LaunchedByHand(s, j, pid), Connect(pid, name, s.lost[j].id, s.lost[j].caps));
            && t.task == Idle && SomePending(t.clients)
            && Next(t, SaveProject).out == t.out + [Percent(0), Percent(100), ProjectSaved]
  {
    var u := LaunchedByHand(s, j, pid);
    assert u.lost[j].pid == pid && forall k :: 0 <= k < |u.lost| && k != j ==> u.lost[k] == s.lost[k];
    assert IndexByPid(u.lost, pid) == j;
    var t := Resume(u, j, name);
    assert t.clients[0].pending != 0;
    SavedWithoutAskingExactlyWhen(t);
    hide Save;
  }
}
