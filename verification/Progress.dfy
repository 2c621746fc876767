/** Which percentage is recorded for a client and shown for its project: what the reports say, and
  nothing else. */
module Progress {
  import opened SessionSpec
  import opened TaskAccounting
  import opened SaveProtocol
  import opened RestoreSchedule
  import opened RestoreRuns
  import opened Graph

  /** A further report of progress; up to 99 percent count, and 0 and 255 are no percentages. */
  function Raise(progress: nat, percentage: nat): nat {
    if 0 < percentage < 255 && Shown99(percentage) > progress then Shown99(percentage) else progress
  }

  function RaisedBy(progress: nat, m: Step, name: nat, task: nat): nat {
    if m.Report? && m.name == name && m.task == task then Raise(progress, m.percentage) else progress
  }

  predicate Arrives(m: Step, name: nat) {
    m.Connect? && m.name == name
  }

  /** How far a client has come with a task, going by the messages alone: the largest percentage it has
    reported for it since it connected, at most 99. */
  function Reached(ms: seq<Step>, name: nat, task: nat): nat {
    if ms == [] || Arrives(ms[|ms| - 1], name) then 0
    else RaisedBy(Reached(ms[..|ms| - 1], name, task), ms[|ms| - 1], name, task)
  }

  /** Report number `i` of these counts for the task. */
  predicate Counts(ms: seq<Step>, i: nat, name: nat, task: nat) {
    && i < |ms| && ms[i].Report? && ms[i].name == name && ms[i].task == task && 0 < ms[i].percentage < 255
    && forall j :: i < j < |ms| ==> !Arrives(ms[j], name)
  }

  lemma CountsOneMore(ms: seq<Step>, m: Step, name: nat, task: nat, i: nat)
    requires i < |ms|
    ensures Counts(ms + [m], i, name, task) <==> Counts(ms, i, name, task) && !Arrives(m, name)
  {
    var all := ms + [m];
    assert all[i] == ms[i] && all[|ms|] == m;
    assert forall j :: i < j < |ms| ==> all[j] == ms[j];
  }

  function Shown99(percentage: nat): nat {
    if percentage > 99 then 99 else percentage
  }

  /** No report that counts says more, and what has been reached was said by one. */
  lemma {:induction false} ReachedIsLargest(ms: seq<Step>, name: nat, task: nat)
    ensures forall i: nat :: Counts(ms, i, name, task) ==> Shown99(ms[i].percentage) <= Reached(ms, name, task)
    ensures Reached(ms, name, task) > 0 ==>
              exists i: nat :: Counts(ms, i, name, task) && Reached(ms, name, task) == Shown99(ms[i].percentage)
  {
    if ms != [] {
      var init, m, n := ms[..|ms| - 1], ms[|ms| - 1], |ms| - 1;
      ReachedIsLargest(init, name, task);
      assert ms == init + [m];
      forall i: nat | Counts(ms, i, name, task)
        ensures Shown99(ms[i].percentage) <= Reached(ms, name, task)
      {
        if i < n { CountsOneMore(init, m, name, task, i); }
      }
      var r := Reached(ms, name, task);
      if r > 0 && r == Reached(init, name, task) {
        var i: nat :| Counts(init, i, name, task) && r == Shown99(init[i].percentage);
        CountsOneMore(init, m, name, task, i);
      } else if r > 0 {
        assert Counts(ms, n, name, task);
      }
    }
  }

  // ------------------------------------------------------------------ one step

  /** Client `d` of the next state stood at the same task before, and has come as far as the step says; or
    its task has just begun. */
  ghost predicate Goes(r: State, m: Step, d: Client) {
    || (exists j :: 0 <= j < |r.clients| && r.clients[j].name == d.name && r.clients[j].pending == d.pending
                    && d.progress == RaisedBy(r.clients[j].progress, m, d.name, d.pending))
    || (d.progress == 0 && Arrives(m, d.name) && r.task == Loading)
    || (d.progress == 0 && m.SaveProject? && r.task == Idle)
  }

  ghost predicate AllGo(r: State, m: Step, t: State) {
    forall k :: 0 <= k < |t.clients| && t.clients[k].pending != 0 ==> Goes(r, m, t.clients[k])
  }

  lemma Stays(r: State, m: Step, j: nat)
    requires j < |r.clients|
    requires m.Report? && m.name == r.clients[j].name && m.task == r.clients[j].pending ==>
               Raise(r.clients[j].progress, m.percentage) == r.clients[j].progress
    ensures Goes(r, m, r.clients[j])
  {
  }

  lemma SaveGoes(r: State)
    requires Inv(r)
    ensures AllGo(r, SaveProject, Save(r))
  {
    if r.task == Idle {
      BeginSaveAllAt(r.clients, r.taskIter + 1);
      SaveFields(r);
      hide Save, BeginSaveAll;
      forall k | 0 <= k < |Save(r).clients| && Save(r).clients[k].pending != 0
        ensures Goes(r, SaveProject, Save(r).clients[k])
      {
        assert ClientOk(Idle, r.taskIter, r.clients[k]);
      }
    } else {
      forall k | 0 <= k < |r.clients| ensures Goes(r, SaveProject, r.clients[k]) { Stays(r, SaveProject, k); }
    }
  }

  lemma ConnectGoes(r: State, m: Step)
    requires Inv(r) && m.Connect? && Allowed(r, m)
    ensures AllGo(r, m, AddClient(r, m.pid, m.name, m.id, m.caps))
  {
    var t := AddClient(r, m.pid, m.name, m.id, m.caps);
    var j := IndexByPid(r.lost, m.pid);
    if m.pid != 0 && j < |r.lost| {
      ResumesWhileLoading(r, m.pid);
      Resumes(r, j, m.name);
    }
    hide Resume, Inv;
    forall k | 0 <= k < |t.clients| && t.clients[k].pending != 0
      ensures Goes(r, m, t.clients[k])
    {
      if k > 0 {
        assert t.clients[k] == r.clients[k - 1];
        Stays(r, m, k - 1);
      }
    }
  }

  /** A task that begins stands at nothing. */
  lemma Resumes(r: State, j: nat, name: nat)
    requires Inv(r) && r.task == Loading && j < |r.lost|
    ensures var t := Resume(r, j, name);
            && |t.clients| == |r.clients| + 1 && t.clients[0].name == name
            && (t.clients[0].pending != 0 ==> t.clients[0].progress == 0)
            && forall k :: 0 < k < |t.clients| ==> t.clients[k] == r.clients[k - 1]
  {
    if Stateless(r.lost[j]) {
      hide Resume;
      assert LostOk(r.lost);
      StatelessResumeFields(r, j, name);
    }
  }

  lemma CompletionGoes(r: State, m: Step, i: nat, ok: bool, diskOk: bool)
    requires Inv(r) && IsDelivery(m) && i < |r.clients| && r.clients[i].pending != 0 && m.name == r.clients[i].name
    ensures AllGo(r, m, TaskCompleted(r, i, ok, diskOk))
  {
    InvNames(r);
    var d := CompletedFields(r, i, ok, diskOk);
    hide TaskCompleted, TaskEffect, Inv;
    var t := TaskCompleted(r, i, ok, diskOk);
    forall k | 0 <= k < |t.clients| && t.clients[k].pending != 0
      ensures Goes(r, m, t.clients[k])
    {
      assert k != i && t.clients[k] == r.clients[k];
      Stays(r, m, k);
    }
  }

  lemma ProgressGoes(r: State, m: Step, i: nat)
    requires Inv(r) && m.Report? && i < |r.clients| && Accepts(r.clients[i], m.task) && m.name == r.clients[i].name
    requires 0 < m.percentage < 255
    ensures AllGo(r, m, TaskProgressed(r, i, m.percentage, m.diskOk))
  {
    InvNames(r);
    var t := TaskProgressed(r, i, m.percentage, m.diskOk);
    assert ClientOk(r.task, r.taskIter, r.clients[i]);
    forall k | 0 <= k < |t.clients| && t.clients[k].pending != 0
      ensures Goes(r, m, t.clients[k])
    {
      assert t.clients[k] == r.clients[k].(progress := t.clients[k].progress);
      if k != i { Stays(r, m, k); }
    }
  }

  /** Nobody is addressed, so nobody moves. */
  lemma NothingGoes(r: State, m: Step)
    requires Inv(r) && IsDelivery(m)
    requires var i := IndexByName(r.clients, m.name); i < |r.clients| ==> !Accepts(r.clients[i], m.task) || m.Commit?
    ensures AllGo(r, m, r)
  {
    InvNames(r);
    hide Inv;
    forall k | 0 <= k < |r.clients| && r.clients[k].pending != 0
      ensures Goes(r, m, r.clients[k])
    {
      if m.Report? && m.name == r.clients[k].name { assert IndexByName(r.clients, m.name) == k; }
      Stays(r, m, k);
    }
  }

  /** Over one step, whatever it is. */
  lemma NextGoes(r: State, m: Step)
    requires Inv(r) && Allowed(r, m)
    ensures AllGo(r, m, Next(r, m))
  {
    hide Inv, AllGo, Save, AddClient, TaskCompleted, TaskProgressed;
    match m
    case SaveProject => SaveGoes(r);
    case Connect(_, _, _, _) => ConnectGoes(r, m);
    case Report(name, task, percentage, diskOk) =>
      var i := IndexByName(r.clients, name);
      if i < |r.clients| && Accepts(r.clients[i], task) {
        if 0 < percentage < 255 {
          ProgressGoes(r, m, i);
        } else {
          EndsAt(r, i, percentage, diskOk);
          CompletionGoes(r, m, i, percentage == 255, diskOk);
        }
      } else {
        NothingGoes(r, m);
      }
    case Commit(name, task, payload, diskOk) =>
      var i := IndexByName(r.clients, name);
      if i < |r.clients| && Accepts(r.clients[i], task) && r.clients[i].hasStore && payload.Configs? {
        CompletionGoes(r, m, i, payload.valid, diskOk);
      } else {
        NothingGoes(r, m);
      }
  }

  lemma EndsAt(r: State, i: nat, percentage: nat, diskOk: bool)
    requires i < |r.clients| && (percentage == 0 || percentage >= 255) && percentage < U8
    ensures TaskProgressed(r, i, percentage, diskOk) == TaskCompleted(r, i, percentage == 255, diskOk)
  {
    hide TaskCompleted;
  }

  // ------------------------------------------------------------------ every run

  /** Every open task has come as far as its client has said. */
  ghost predicate AsReported(ms: seq<Step>, r: State) {
    forall k :: 0 <= k < |r.clients| && r.clients[k].pending != 0 ==>
      r.clients[k].progress == Reached(ms, r.clients[k].name, r.clients[k].pending)
  }

  lemma NextAsReported(ms: seq<Step>, r: State, m: Step)
    requires Inv(r) && Allowed(r, m) && AsReported(ms, r)
    requires m.SaveProject? ==> r.task != Idle
    ensures AsReported(ms + [m], Next(r, m))
  {
    NextGoes(r, m);
    hide Inv, Next;
    var t := Next(r, m);
    assert (ms + [m])[..|ms|] == ms;
    forall k | 0 <= k < |t.clients| && t.clients[k].pending != 0
      ensures t.clients[k].progress == Reached(ms + [m], t.clients[k].name, t.clients[k].pending)
    {
      var d := t.clients[k];
      assert Goes(r, m, d);
      if !(d.progress == 0 && Arrives(m, d.name)) {
        var j :| 0 <= j < |r.clients| && r.clients[j].name == d.name && r.clients[j].pending == d.pending
                 && d.progress == RaisedBy(r.clients[j].progress, m, d.name, d.pending);
      }
    }
  }

  lemma {:induction false} SaveRunAsReported(s: State, ms: seq<Step>)
    requires SaveReady(s) && AllowedRun(Save(s), ms) && OneSave(Save(s), ms)
    ensures AsReported(ms, Run(Save(s), ms))
  {
    hide Next, Inv, SaveReady, Save, Allowed;
    if ms == [] {
      SaveBegins(s);
    } else {
      var init, m := ms[..|ms| - 1], ms[|ms| - 1];
      SaveRunAsReported(s, init);
      SaveRun(s, init);
      hide AsReported;
      NextAsReported(init, Run(Save(s), init), m);
      assert ms == init + [m];
    }
  }

  lemma SaveBegins(s: State)
    requires SaveReady(s)
    ensures AsReported([], Save(s))
  {
    SaveFields(s);
    BeginSaveAllAt(s.clients, s.taskIter + 1);
    hide Save, BeginSaveAll;
    assert forall k :: 0 <= k < |s.clients| ==> ClientOk(Idle, s.taskIter, s.clients[k]);
  }

  lemma {:induction false} LoadRunAsReported(p: State, steps: seq<Step>)
    requires Parsed(p) && AllowedRun(Restore(p), steps) && Run(Restore(p), steps).task == Loading
    ensures AsReported(steps, Run(Restore(p), steps))
  {
    hide Next, Inv, Restore, Allowed;
    if steps == [] {
      RestoreFields(p);
    } else {
      var init, m := steps[..|steps| - 1], steps[|steps| - 1];
      LoadingBefore(p, steps);
      LoadRunAsReported(p, init);
      RestoreRun(p, init);
      hide AsReported;
      NextAsReported(init, Run(Restore(p), init), m);
      assert steps == init + [m];
    }
  }

  // ------------------------------------------------------------------ what is shown

  /** What a client adds to the sum while its task is open. */
  function Heard(ms: seq<Step>, cs: seq<Client>): nat {
    if cs == [] then 0
    else (if cs[0].pending != 0 then Reached(ms, cs[0].name, cs[0].pending) else 0) + Heard(ms, cs[1..])
  }

  lemma {:induction false} HeardIsSum(ms: seq<Step>, cs: seq<Client>)
    requires forall k :: 0 <= k < |cs| && cs[k].pending != 0 ==>
               cs[k].progress == Reached(ms, cs[k].name, cs[k].pending)
    ensures Sum(Part, cs) == Heard(ms, cs)
  {
    if cs != [] {
      assert forall k :: 0 <= k < |cs[1..]| ==> cs[1..][k] == cs[k + 1];
      HeardIsSum(ms, cs[1..]);
    }
  }

  /** The percentage shown last: the mean over all clients of the task, those that have finished counted as
    a hundred, rounded down, and never more than 99. */
  ghost predicate ShowsMean(ms: seq<Step>, r: State) {
    r.total > 0 && r.pending <= r.total &&
    (var mean := (100 * (r.total - r.pending) + Heard(ms, r.clients)) / r.total;
     LogOf(r.out) == Running(if mean > 99 then 99 else mean))
  }

  lemma MeanIsShown(ms: seq<Step>, r: State)
    requires Inv(r) && r.task != Idle && r.total > 0 && AsReported(ms, r)
    ensures ShowsMean(ms, r)
  {
    HeardIsSum(ms, r.clients);
    hide LogOf;
  }

  /** While a save goes on, what is recorded for each client is the largest percentage it has reported, and
    what is shown is the mean of that. */
  lemma SaveShows(s: State, ms: seq<Step>)
    requires SaveReady(s) && AllowedRun(Save(s), ms) && OneSave(Save(s), ms) && Run(Save(s), ms).task == Saving
    ensures var r := Run(Save(s), ms);
            AsReported(ms, r) && ShowsMean(ms, r) && r.total == CountInternal(s.clients)
  {
    hide Save, SaveReady, AllowedRun, OneSave, ShowsMean, AsReported, Tracks;
    SaveRun(s, ms);
    SaveRunAsReported(s, ms);
    SaveTotal(s, ms);
    TotalIsPositive(Run(Save(s), ms));
    MeanIsShown(ms, Run(Save(s), ms));
  }

  lemma TotalIsPositive(r: State)
    requires Inv(r) && r.task == Saving
    ensures r.total > 0
  {
  }

  /** How many clients take part does not change. */
  lemma NextTotal(r: State, m: Step)
    requires Inv(r) && Allowed(r, m) && r.task != Idle && Next(r, m).task == r.task
    ensures Next(r, m).total == r.total
  {
    match m
    case SaveProject =>
    case Connect(pid, name, _, _) =>
      hide Resume, Inv;
      var j := IndexByPid(r.lost, pid);
      if pid != 0 && j < |r.lost| {
        ResumesWhileLoading(r, pid);
        if Stateless(r.lost[j]) { StatelessResumeFields(r, j, name); } else { ResumeTotal(r, j, name); }
      }
    case Report(name, task, percentage, diskOk) =>
      hide TaskCompleted, Inv;
      var i := IndexByName(r.clients, name);
      if i < |r.clients| && Accepts(r.clients[i], task) { CompletionTotal(r, i, percentage == 255, diskOk); }
    case Commit(name, task, payload, diskOk) =>
      hide TaskCompleted, Inv;
      var i := IndexByName(r.clients, name);
      if i < |r.clients| && Accepts(r.clients[i], task) && payload.Configs? {
        CompletionTotal(r, i, payload.valid, diskOk);
      }
  }

  lemma ResumeTotal(r: State, j: nat, name: nat)
    requires j < |r.lost| && !Stateless(r.lost[j])
    ensures Resume(r, j, name).total == r.total
  {
  }

  lemma CompletionTotal(r: State, i: nat, ok: bool, diskOk: bool)
    requires Inv(r) && r.task != Idle && i < |r.clients| && r.clients[i].pending != 0
    ensures var t := TaskCompleted(r, i, ok, diskOk); t.task == r.task ==> t.total == r.total
  {
    hide TaskCompleted, TaskEffect, Inv;
    var d := CompletedFields(r, i, ok, diskOk);
  }

  lemma {:induction false} SaveTotal(s: State, ms: seq<Step>)
    requires SaveReady(s) && AllowedRun(Save(s), ms) && OneSave(Save(s), ms)
    ensures Run(Save(s), ms).task == Saving ==> Run(Save(s), ms).total == CountInternal(s.clients)
  {
    hide Next, Inv, SaveReady, Save, Allowed, Tracks;
    if ms == [] {
      SaveFields(s);
    } else {
      var init, m := ms[..|ms| - 1], ms[|ms| - 1];
      SaveTotal(s, init);
      SaveRun(s, init);
      var r := Run(Save(s), init);
      if Next(r, m).task == Saving {
        SaveStaysOpen(r, m);
        NextTotal(r, m);
      }
    }
  }

  lemma SaveStaysOpen(r: State, m: Step)
    requires Inv(r) && r.task != Loading && Allowed(r, m) && Next(r, m).task == Saving
    requires m.SaveProject? ==> r.task != Idle
    ensures r.task == Saving
  {
  }

  /** And the same while a project is loaded. */
  lemma LoadShows(p: State, steps: seq<Step>)
    requires Parsed(p) && p.lost != [] && AllowedRun(Restore(p), steps) && Run(Restore(p), steps).task == Loading
    ensures var r := Run(Restore(p), steps);
            AsReported(steps, r) && ShowsMean(steps, r) && r.total == |p.lost|
  {
    hide Restore, AllowedRun, ShowsMean, AsReported, RunGood;
    LoadRunAsReported(p, steps);
    RestoreRun(p, steps);
    LoadTotal(p, steps);
    GoodKeeps(Roster(p), p.forks, Done(Restore(p), steps), Run(Restore(p), steps));
    MeanIsShown(steps, Run(Restore(p), steps));
  }

  lemma GoodKeeps(b: map<Id, Client>, forks: map<Id, nat>, done: seq<Id>, s: State)
    requires RunGood(b, forks, done, s)
    ensures Inv(s)
  {
  }

  lemma {:induction false} LoadTotal(p: State, steps: seq<Step>)
    requires Parsed(p) && AllowedRun(Restore(p), steps) && Run(Restore(p), steps).task == Loading
    ensures Run(Restore(p), steps).total == |p.lost|
  {
    hide Next, Restore, Allowed, RunGood, Inv;
    if steps == [] {
      RestoreFields(p);
    } else {
      var init := steps[..|steps| - 1];
      LoadingBefore(p, steps);
      LoadTotal(p, init);
      RestoreRun(p, init);
      GoodKeeps(Roster(p), p.forks, Done(Restore(p), init), Run(Restore(p), init));
      NextTotal(Run(Restore(p), init), steps[|steps| - 1]);
    }
  }
}
