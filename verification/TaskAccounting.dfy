/** The task counters of a project, over every run of connects, reports and save requests.

  Runs exclude disconnects and explicit launches of lost clients, which the counters do not
  survive. Messages may be delayed, duplicated or reordered: any message may arrive at any
  time. */
module TaskAccounting {
  import opened Graph
  import opened SessionSpec

  // ------------------------------------------------------------------ sums over clients

  function Sum(f: Client -> nat, cs: seq<Client>): nat {
    if cs == [] then 0 else f(cs[0]) + Sum(f, cs[1..])
  }

  lemma {:induction false} SumUpdate(f: Client -> nat, cs: seq<Client>, i: nat, c: Client)
    requires i < |cs|
    ensures Sum(f, cs[i := c]) == Sum(f, cs) - f(cs[i]) + f(c)
  {
    if i == 0 {
      assert cs[0 := c][1..] == cs[1..];
    } else {
      assert cs[i := c][1..] == cs[1..][i - 1 := c];
      SumUpdate(f, cs[1..], i - 1, c);
    }
  }

  lemma SumPrepend(f: Client -> nat, c: Client, cs: seq<Client>)
    ensures Sum(f, [c] + cs) == f(c) + Sum(f, cs)
  {
    assert ([c] + cs)[1..] == cs;
  }

  lemma {:induction false} SumZero(f: Client -> nat, cs: seq<Client>)
    requires forall c <- cs :: f(c) == 0
    ensures Sum(f, cs) == 0
  {
    if cs != [] { SumZero(f, cs[1..]); }
  }

  lemma {:induction false} SumScaled(f: Client -> nat, g: Client -> nat, k: nat, cs: seq<Client>)
    requires forall c <- cs :: f(c) <= k * g(c)
    ensures Sum(f, cs) <= k * Sum(g, cs)
  {
    if cs != [] { SumScaled(f, g, k, cs[1..]); }
  }

  /** The client has a task and has not reported its end. */
  function Owes(c: Client): nat {
    if c.pending != 0 then 1 else 0
  }

  /** While loading, a silent client is waited for although it has no task. */
  function OwesLoading(c: Client): nat {
    if c.pending != 0 || (c.restored && Silent(c)) then 1 else 0
  }

  function Part(c: Client): nat {
    if c.pending != 0 then c.progress else 0
  }

  // ------------------------------------------------------------------ the progress log

  /** Reads a log of signals as a controller would: `Quiet` between tasks, `Running(p)` while
    a task stands at `p` percent, `Full` after 100 percent, `Broken` if the log is wrong. */
  datatype LogState = Quiet | Running(last: nat) | Full | Broken

  function LogStep(l: LogState, g: Signal): LogState {
    match l
    case Quiet => if g == Percent(0) then Running(0) else Broken
    case Running(last) =>
      (match g
       case Percent(p) => if last <= p <= 99 then Running(p) else if p == 100 then Full else Broken
       case ProjectSaved => Broken
       case ProjectLoaded => Broken
       case SaveRequest(_) => l
       case LoadRequest(_, _) => l
       case Launch(_) => l)
    case Full => if g.ProjectSaved? || g.ProjectLoaded? then Quiet else Broken
    case Broken => Broken
  }

  function LogOf(out: seq<Signal>): LogState {
    if out == [] then Quiet else LogStep(LogOf(out[..|out| - 1]), out[|out| - 1])
  }

  lemma LogAppend(out: seq<Signal>, g: Signal)
    ensures LogOf(out + [g]) == LogStep(LogOf(out), g)
  {
    assert (out + [g])[..|out|] == out;
  }

  lemma {:induction false} LogLaunches(out: seq<Signal>, gs: seq<Signal>)
    requires LogOf(out).Running?
    requires forall g <- gs :: g.Launch?
    ensures LogOf(out + gs) == LogOf(out)
  {
    if gs == [] {
      assert out + gs == out;
    } else {
      var init := gs[..|gs| - 1];
      assert gs[|gs| - 1] in gs && forall g <- init :: g in gs;
      LogLaunches(out, init);
      assert out + gs == (out + init) + [gs[|gs| - 1]];
      LogAppend(out + init, gs[|gs| - 1]);
    }
  }

  /** After a percentage below 100, and until 100 is shown, the log stands at no less. */
  lemma {:induction false} LogStaysAbove(out: seq<Signal>, i: nat, p: nat)
    requires LogOf(out) != Broken && i < |out| && out[i] == Percent(p) && p <= 99
    requires forall k :: i < k < |out| ==> out[k] != Percent(100)
    ensures LogOf(out).Running? && LogOf(out).last >= p
  {
    if i < |out| - 1 {
      LogStaysAbove(out[..|out| - 1], i, p);
    }
  }

  lemma {:induction false} LogPrefix(out: seq<Signal>, n: nat)
    requires LogOf(out) != Broken && n <= |out|
    ensures LogOf(out[..n]) != Broken
  {
    if n < |out| {
      LogPrefix(out[..|out| - 1], n);
      assert out[..|out| - 1][..n] == out[..n];
    } else {
      assert out[..n] == out;
    }
  }

  /** Percentages never fall before 100 has been shown. */
  lemma LogNeverFalls(out: seq<Signal>, i: nat, j: nat, p: nat, q: nat)
    requires LogOf(out) != Broken && i < j < |out| && out[i] == Percent(p) && out[j] == Percent(q) && p <= 99
    requires forall k :: i < k < j ==> out[k] != Percent(100)
    ensures p <= q <= 100
  {
    LogPrefix(out, j + 1);
    LogPrefix(out, j);
    assert out[..j + 1][..j] == out[..j];
    LogStaysAbove(out[..j], i, p);
  }

  /** A project is announced as saved or loaded right after 100 percent, and only then; nothing
    else can follow 100 percent. */
  lemma LogAnnounces(out: seq<Signal>, j: nat)
    requires LogOf(out) != Broken && 0 < j < |out|
    ensures out[j] == ProjectSaved || out[j] == ProjectLoaded <==> out[j - 1] == Percent(100)
  {
    LogPrefix(out, j + 1);
    assert out[..j + 1][..j] == out[..j] && out[..j][..j - 1] == out[..j - 1];
  }

  // ------------------------------------------------------------------ the invariant

  function Shown(s: State): nat {
    if s.total == 0 then 0
    else if s.progress / s.total > 99 then 99 else s.progress / s.total
  }

  predicate ClientOk(task: ProjectTask, taskIter: nat, c: Client) {
    && c.pending <= taskIter
    && (c.pending == 0 ==> c.kind == NoTask)
    && (c.pending != 0 ==> c.progress <= 99 && task != Idle)
    && (c.pending != 0 && task == Saving ==> c.kind.IsSave() && c.pending == taskIter)
    && (c.pending != 0 && task == Loading ==> c.kind.IsRestore() && Loads(c))
  }

  predicate ClientsOk(task: ProjectTask, taskIter: nat, cs: seq<Client>) {
    forall k :: 0 <= k < |cs| ==> ClientOk(task, taskIter, cs[k])
  }

  /** A lost client has no task. */
  predicate LostOk(cs: seq<Client>) {
    forall k :: 0 <= k < |cs| ==> cs[k].pending == 0 && cs[k].kind == NoTask && cs[k].progress == 0
  }

  predicate DistinctNames(cs: seq<Client>) {
    forall i, j :: 0 <= i < j < |cs| ==> cs[i].name != cs[j].name
  }

  predicate FreshName(cs: seq<Client>, name: nat) {
    forall k :: 0 <= k < |cs| ==> cs[k].name != name
  }

  /** Nobody of these was launched, so nobody connects as one of them. */
  predicate Unlaunched(cs: seq<Client>) {
    forall k :: 0 <= k < |cs| ==> cs[k].pid == 0
  }

  /** The counters say what they are meant to say. An idle project may have lost clients, and a
    progress sum left over from earlier. */
  predicate Counted(s: State) {
    match s.task
    case Idle => s.total == s.pending == 0 && Unlaunched(s.lost)
    case Saving => 1 <= s.pending == Sum(Owes, s.clients) && s.lost == []
    case Loading => s.pending == |s.lost| + Sum(OwesLoading, s.clients) && (s.pending == 0 ==> s.total == 0)
  }

  predicate InRange(s: State) {
    && s.pending <= s.total <= |s.clients| + |s.lost|
    && 100 * (|s.clients| + |s.lost|) < U32
  }

  predicate Progressed(s: State) {
    s.task != Idle ==> s.progress == 100 * (s.total - s.pending) + Sum(Part, s.clients)
  }

  predicate Logged(s: State) {
    LogOf(s.out) == if s.task == Idle then Quiet else Running(Shown(s))
  }

  predicate Inv(s: State)
  {
    && ClientsOk(s.task, s.taskIter, s.clients)
    && LostOk(s.lost)
    && DistinctNames(s.clients)
    && InRange(s)
    && Counted(s)
    && Progressed(s)
    && Logged(s)
  }

  /** Restrictions on a run: connection names are unique on the bus, the client count keeps
    the 32-bit sums in range, and no client without a store reports a data set as saved. */
  ghost predicate Allowed(s: State, step: Step) {
    match step
    case Connect(pid, name, id, caps) =>
      && FreshName(s.clients, name)
      && (pid == 0 || IndexByPid(s.lost, pid) == |s.lost| ==>
            !Listed(s.clients + s.lost, id) && 100 * (|s.clients| + |s.lost| + 1) < U32)
    case Report(name, task, percentage, _) =>
      && percentage < U8
      && (forall k :: 0 <= k < |s.clients| && s.clients[k].name == name && Accepts(s.clients[k], task) ==>
            s.clients[k].kind.SaveDataSet? && percentage == 255 ==> s.clients[k].hasStore)
    case Commit(_, _, _, _) => true
    case SaveProject => true
  }

  /** What the last restriction excludes is exactly the death of the daemon. */
  lemma AllowedReportsExactly(s: State, name: nat, task: nat, percentage: nat, diskOk: bool)
    requires DistinctNames(s.clients)
    ensures Allowed(s, Report(name, task, percentage, diskOk)) <==> percentage < U8 && !Dies(s, name, task, percentage)
  {
    var i := IndexByName(s.clients, name);
    assert forall k :: 0 <= k < |s.clients| && s.clients[k].name == name ==> k == i;
  }

  ghost predicate AllowedRun(s: State, steps: seq<Step>) {
    steps == [] ||
    (var init := steps[..|steps| - 1];
     AllowedRun(s, init) && Allowed(Run(s, init), steps[|steps| - 1]))
  }

  // ------------------------------------------------------------------ arithmetic of one report

  lemma DivBelow(a: nat, k: nat, d: nat)
    requires d > 0 && a < k * d
    ensures a / d < k
  {
  }

  lemma DivMonotone(a: nat, b: nat, d: nat)
    requires a <= b && d > 0
    ensures a / d <= b / d
  {
    var k := b / d;
    assert b == k * d + b % d;
    DivBelow(a, k + 1, d);
  }

  /** One progress report of a client at `percentage`, everybody else contributing `rest`:
    nothing wraps, and the percentage shown does not fall. */
  lemma ProgressCore(s: State, i: nat, percentage: nat, rest: nat)
    requires i < |s.clients| && s.clients[i].progress <= percentage <= 100
    requires 0 < s.total && s.progress == rest + s.clients[i].progress
    requires rest + 100 <= 100 * s.total < U32
    requires LogOf(s.out) == Running(Shown(s))
    ensures var r := ClientProgress(s, i, percentage);
            && r == s.(clients := s.clients[i := s.clients[i].(progress := percentage)],
                       progress := rest + percentage, out := s.out + [Percent(Shown(r))])
            && LogOf(r.out) == Running(Shown(r))
  {
    var r := ClientProgress(s, i, percentage);
    assert (s.progress - s.clients[i].progress) % U32 == rest;
    assert (rest + percentage) % U32 == rest + percentage;
    DivMonotone(s.progress, rest + percentage, s.total);
    DivBelow(rest + percentage, 101, s.total);
    assert ((rest + percentage) / s.total) % U8 == (rest + percentage) / s.total;
    LogAppend(s.out, Percent(Shown(r)));
  }

  /** One completion, everybody else contributing `rest`. */
  lemma CompletionCore(s: State, i: nat, rest: nat)
    requires i < |s.clients| && s.clients[i].progress <= 100
    requires 1 <= s.pending <= s.total && 100 * s.total < U32
    requires s.progress == 100 * (s.total - s.pending) + rest + s.clients[i].progress
    requires rest <= 99 * (s.pending - 1)
    requires s.clients[i].kind != NoTask
    requires LogOf(s.out) == Running(Shown(s))
    ensures var r := ProjectTaskCompleted(s, i);
            && r.clients == s.clients[i := s.clients[i].(progress := 100)]
            && r.lost == s.lost && r.taskIter == s.taskIter && r.forks == s.forks
            && r.pending == s.pending - 1
            && (s.pending > 1 ==>
                  && r.task == s.task && r.total == s.total
                  && r.progress == 100 * (r.total - r.pending) + rest
                  && (exists p :: r.out == s.out + [Percent(p)])
                  && LogOf(r.out) == Running(Shown(r)))
            && (s.pending == 1 ==>
                  && r.task == Idle && r.total == r.progress == 0
                  && (exists p :: r.out == s.out + [Percent(p), Percent(100),
                                    if s.clients[i].kind.IsSave() then ProjectSaved else ProjectLoaded])
                  && LogOf(r.out) == Quiet)
  {
    hide LogOf, ClientProgress;
    var before := 100 * (s.total - s.pending) + rest;
    ProgressCore(s, i, 100, before);
    var t := ClientProgress(s, i, 100);
    var r := ProjectTaskCompleted(s, i);
    if s.pending == 1 {
      var last := if s.clients[i].kind.IsSave() then ProjectSaved else ProjectLoaded;
      LogAppend(t.out, Percent(100));
      LogAppend(t.out + [Percent(100)], last);
      assert r.out == t.out + [Percent(100)] + [last];
      assert r.out == s.out + [Percent(Shown(t)), Percent(100), last];
    } else {
      assert r.out == s.out + [Percent(Shown(t))];
    }
  }

  // ------------------------------------------------------------------ every step keeps the invariant

  lemma {:induction false} SumZeroEach(f: Client -> nat, cs: seq<Client>)
    requires Sum(f, cs) == 0
    ensures forall k :: 0 <= k < |cs| ==> f(cs[k]) == 0
  {
    if cs != [] {
      SumZeroEach(f, cs[1..]);
      assert forall k :: 1 <= k < |cs| ==> cs[k] == cs[1..][k - 1];
    }
  }

  function OwesIn(task: ProjectTask): Client -> nat {
    if task == Loading then OwesLoading else Owes
  }

  lemma PartBound(task: ProjectTask, taskIter: nat, cs: seq<Client>)
    requires ClientsOk(task, taskIter, cs)
    ensures Sum(Part, cs) <= 99 * Sum(OwesIn(task), cs)
  {
    forall c <- cs
      ensures Part(c) <= 99 * OwesIn(task)(c)
    {
    }
    SumScaled(Part, OwesIn(task), 99, cs);
  }

  /** What everybody but client `i` contributes to the counters. */
  lemma OthersBound(s: State, i: nat, c: Client)
    requires Inv(s) && i < |s.clients| && s.clients[i].pending != 0
    requires c.pending == 0 && c.kind == NoTask && OwesIn(s.task)(c) == 0
    ensures var others := s.clients[i := c];
            && ClientsOk(s.task, s.taskIter, others)
            && Sum(Part, s.clients) == Sum(Part, others) + s.clients[i].progress
            && Sum(OwesIn(s.task), s.clients) == Sum(OwesIn(s.task), others) + 1
            && 1 <= s.pending && Sum(Part, others) <= 99 * (s.pending - 1)
  {
    SumUpdate(Part, s.clients, i, c);
    SumUpdate(OwesIn(s.task), s.clients, i, c);
    PartBound(s.task, s.taskIter, s.clients[i := c]);
  }

  /** When nothing is owed any more nobody has a task. */
  lemma ClientsIdle(task: ProjectTask, taskIter: nat, cs: seq<Client>)
    requires ClientsOk(task, taskIter, cs) && Sum(OwesIn(task), cs) == 0
    ensures ClientsOk(Idle, taskIter, cs)
  {
    SumZeroEach(OwesIn(task), cs);
  }

  /** The effect of a task outcome touches no counter and logs nothing but launches. */
  lemma TaskEffectFrame(s: State, i: nat, ok: bool, diskOk: bool)
    requires Inv(s) && i < |s.clients| && s.clients[i].pending != 0
    ensures var t := TaskEffect(s, i, ok, diskOk);
            && t == s.(clients := t.clients, lost := t.lost, out := t.out)
            && |t.clients| == |s.clients| && t.clients == s.clients[i := t.clients[i]]
            && (t.clients[i] == s.clients[i] || (s.task == Saving && t.clients[i] == s.clients[i].(saved := true)))
            && |t.lost| == |s.lost| && LostOk(t.lost)
            && LogOf(t.out) == LogOf(s.out)
  {
    hide Satisfy, LogOf, LostOk, Inv;
    TaskOf(s, i);
    SatisfyFrame(s, s.clients[i].id);
  }

  lemma TaskOf(s: State, i: nat)
    requires Inv(s) && i < |s.clients| && s.clients[i].pending != 0
    ensures LostOk(s.lost) && LogOf(s.out).Running?
    ensures s.clients[i].kind.IsSave() ==> s.task == Saving
  {
    hide LogOf, LostOk;
    assert ClientOk(s.task, s.taskIter, s.clients[i]);
  }

  lemma SatisfyFrame(s: State, id: Id)
    requires LostOk(s.lost) && LogOf(s.out).Running?
    ensures var t := Satisfy(s, id);
            && t == s.(lost := t.lost, out := t.out)
            && |t.lost| == |s.lost| && LostOk(t.lost) && LogOf(t.out) == LogOf(s.out)
  {
    SatisfyAllAt(s.lost, id, s.forks);
    LogLaunches(s.out, SatisfySignals(s.lost, id));
    hide LogOf, SatisfyAll, SatisfySignals;
  }

  /** Reports of a saving client set its saved flag and nothing else. */
  lemma SavingEffect(r: State, i: nat, ok: bool, diskOk: bool)
    requires Inv(r) && r.task == Saving && i < |r.clients| && r.clients[i].pending != 0
    ensures r.clients[i].kind.IsSave()
    ensures var t := TaskEffect(r, i, ok, diskOk);
            t.out == r.out
            && t.clients[i] == r.clients[i].(
                 saved := r.clients[i].saved || (ok && (r.clients[i].kind == SaveFile || diskOk)))
  {
    assert ClientOk(Saving, r.taskIter, r.clients[i]);
  }

  lemma InvNames(r: State)
    requires Inv(r)
    ensures DistinctNames(r.clients)
  {
  }

  lemma UpdateTwice<T>(cs: seq<T>, i: nat, a: T, b: T)
    requires i < |cs|
    ensures cs[i := a][i := b] == cs[i := b]
  {
  }

  /** `r` is `s` after one owed completion, with clients `cs`, lost clients `lost`. */
  ghost predicate OneFewer(s: State, cs: seq<Client>, lost: seq<Client>, r: State) {
    && r.clients == cs && r.lost == lost && r.taskIter == s.taskIter
    && s.pending >= 1 && r.pending == s.pending - 1
    && (s.pending > 1 ==>
          && r.task == s.task && r.total == s.total
          && r.progress == 100 * (r.total - r.pending) + Sum(Part, cs)
          && LogOf(r.out) == Running(Shown(r)))
    && (s.pending == 1 ==> r.task == Idle && r.total == r.progress == 0 && LogOf(r.out) == Quiet)
  }

  lemma OneFewerKeeps(s: State, cs: seq<Client>, lost: seq<Client>, r: State)
    requires Inv(s) && OneFewer(s, cs, lost, r) && s.task != Idle
    requires ClientsOk(s.task, s.taskIter, cs) && LostOk(lost) && DistinctNames(cs)
    requires |cs| + |lost| == |s.clients| + |s.lost|
    requires s.pending - 1 == |lost| + Sum(OwesIn(s.task), cs)
    requires s.task == Saving ==> lost == []
    ensures Inv(r)
  {
    if s.pending == 1 { ClientsIdle(s.task, s.taskIter, cs); }
  }

  lemma ClearedFields(t: State, i: nat, d: Client)
    requires i < |t.clients| && d == t.clients[i].(pending := 0, kind := NoTask, progress := 0)
    requires t.clients[i].kind != NoTask && t.clients[i].progress <= 100
    requires 1 <= t.pending <= t.total && 100 * t.total < U32
    requires t.progress == 100 * (t.total - t.pending) + Sum(Part, t.clients[i := d]) + t.clients[i].progress
    requires Sum(Part, t.clients[i := d]) <= 99 * (t.pending - 1)
    requires LogOf(t.out) == Running(Shown(t))
    ensures OneFewer(t, t.clients[i := d], t.lost, ClearTask(ProjectTaskCompleted(t, i), i))
  {
    hide ProjectTaskCompleted;
    CompletionCore(t, i, Sum(Part, t.clients[i := d]));
    UpdateTwice(t.clients, i, ProjectTaskCompleted(t, i).clients[i], d);
  }

  lemma CompletedFields(s: State, i: nat, ok: bool, diskOk: bool) returns (d: Client)
    requires Inv(s) && i < |s.clients| && s.clients[i].pending != 0
    ensures d == TaskEffect(s, i, ok, diskOk).clients[i].(pending := 0, kind := NoTask, progress := 0)
    ensures OwesIn(s.task)(d) == 0 && d.name == s.clients[i].name
    ensures OneFewer(s, s.clients[i := d], TaskEffect(s, i, ok, diskOk).lost, TaskCompleted(s, i, ok, diskOk))
  {
    TaskEffectFrame(s, i, ok, diskOk);
    var t := TaskEffect(s, i, ok, diskOk);
    d := t.clients[i].(pending := 0, kind := NoTask, progress := 0);
    OthersBound(s, i, d);
    assert TaskCompleted(s, i, ok, diskOk) == ClearTask(ProjectTaskCompleted(t, i), i);
    hide TaskEffect, TaskCompleted, ClearTask, ProjectTaskCompleted;
    UpdateTwice(s.clients, i, t.clients[i], d);
    ClearedFields(t, i, d);
  }

  lemma TaskCompletedKeeps(s: State, i: nat, ok: bool, diskOk: bool)
    requires Inv(s) && i < |s.clients| && s.clients[i].pending != 0
    ensures Inv(TaskCompleted(s, i, ok, diskOk))
    ensures TaskCompleted(s, i, ok, diskOk).pending == s.pending - 1
  {
    hide TaskCompleted, TaskEffect;
    TaskEffectFrame(s, i, ok, diskOk);
    var d := CompletedFields(s, i, ok, diskOk);
    OthersBound(s, i, d);
    OneFewerKeeps(s, s.clients[i := d], TaskEffect(s, i, ok, diskOk).lost, TaskCompleted(s, i, ok, diskOk));
  }

  /** What everybody but client `i` contributes to the progress sum. */
  lemma OthersTotal(s: State, i: nat) returns (rest: nat)
    requires Inv(s) && i < |s.clients| && s.clients[i].pending != 0
    ensures s.clients[i].progress <= 99 && 0 < s.total && s.progress == rest + s.clients[i].progress
    ensures rest + 100 <= 100 * s.total < U32
    ensures s.task != Idle && LogOf(s.out) == Running(Shown(s))
  {
    hide LogOf, Shown;
    var cleared := s.clients[i].(pending := 0, kind := NoTask, progress := 0);
    OthersBound(s, i, cleared);
    rest := 100 * (s.total - s.pending) + Sum(Part, s.clients[i := cleared]);
    assert ClientOk(s.task, s.taskIter, s.clients[i]);
  }

  lemma ProgressKeeps(s: State, i: nat, percentage: nat)
    requires Inv(s) && i < |s.clients| && s.clients[i].pending != 0
    requires s.clients[i].progress < percentage <= 99
    ensures Inv(ClientProgress(s, i, percentage))
  {
    var c := s.clients[i];
    var rest := OthersTotal(s, i);
    ProgressCore(s, i, percentage, rest);
    SumUpdate(Part, s.clients, i, c.(progress := percentage));
    SumUpdate(OwesIn(s.task), s.clients, i, c.(progress := percentage));
  }

  /** A client at 99 percent that reports 100 to 254 percent is shown at 99 again: the same mean is
    signalled once more and nothing else changes. Up to 99 percent its report is discarded. */
  lemma RepeatedNinetyNine(s: State, i: nat, percentage: nat, diskOk: bool)
    requires Inv(s) && i < |s.clients| && s.clients[i].pending != 0 && s.clients[i].progress == 99
    requires 0 < percentage < 255
    ensures var t := TaskProgressed(s, i, percentage, diskOk);
            Inv(t) && t == if percentage <= 99 then s else s.(out := s.out + [Percent(Shown(s))])
  {
    hide Inv, ClientProgress, LogOf, Shown;
    var rest := OthersTotal(s, i);
    ProgressCore(s, i, 99, rest);
    assert s.clients[i := s.clients[i].(progress := 99)] == s.clients;
    ShownSame(s, s.out + [Percent(Shown(ClientProgress(s, i, 99)))]);
    SameLogKeeps(s, s.out + [Percent(Shown(s))]);
  }

  lemma ShownSame(s: State, out: seq<Signal>)
    ensures Shown(s.(out := out)) == Shown(s)
  {
  }

  lemma SameLogKeeps(s: State, out: seq<Signal>)
    requires Inv(s) && s.task != Idle && LogOf(out) == Running(Shown(s))
    ensures Inv(s.(out := out))
  {
  }

  /** A client that resumes without state is completed on the spot. */
  lemma StatelessResumeUnfolds(s: State, j: nat, name: nat) returns (t: State)
    requires j < |s.lost| && Stateless(s.lost[j])
    ensures t == s.(lost := s.lost[..j] + s.lost[j + 1..],
                    clients := [s.lost[j].(name := name, restored := true, kind := RestoreDataSet)] + s.clients)
    ensures var u := ProjectTaskCompleted(t, 0);
            Resume(s, j, name) == u.(clients := u.clients[0 := u.clients[0].(kind := NoTask)])
  {
    var rc := ResumedClient(s.lost[j], name, s.taskIter + 1);
    t := s.(lost := s.lost[..j] + s.lost[j + 1..], clients := [rc.(kind := RestoreDataSet)] + s.clients);
    assert ([rc] + s.clients)[0 := rc.(kind := RestoreDataSet)] == t.clients;
  }

  lemma StatelessResumeFields(s: State, j: nat, name: nat)
    requires Inv(s) && s.task == Loading && j < |s.lost| && Stateless(s.lost[j])
    ensures var d := s.lost[j].(name := name, restored := true, progress := 100);
            OneFewer(s, [d] + s.clients, s.lost[..j] + s.lost[j + 1..], Resume(s, j, name))
  {
    hide Resume, ProjectTaskCompleted;
    var d := s.lost[j].(name := name, restored := true, progress := 100);
    var t := StatelessResumeUnfolds(s, j, name);
    PartBound(s.task, s.taskIter, s.clients);
    CompletionCore(t, 0, Sum(Part, s.clients));
    var u := ProjectTaskCompleted(t, 0);
    assert u.clients[0 := u.clients[0].(kind := NoTask)] == [d] + s.clients;
    SumPrepend(Part, d, s.clients);
  }

  lemma PrependOk(task: ProjectTask, taskIter: nat, d: Client, cs: seq<Client>)
    requires ClientOk(task, taskIter, d) && ClientsOk(task, taskIter, cs)
    requires DistinctNames(cs) && FreshName(cs, d.name)
    ensures ClientsOk(task, taskIter, [d] + cs) && DistinctNames([d] + cs)
    ensures Sum(Part, [d] + cs) == Part(d) + Sum(Part, cs)
    ensures Sum(OwesIn(task), [d] + cs) == OwesIn(task)(d) + Sum(OwesIn(task), cs)
  {
    SumPrepend(Part, d, cs);
    SumPrepend(OwesIn(task), d, cs);
  }

  lemma LostWithout(cs: seq<Client>, j: nat)
    requires LostOk(cs) && j < |cs|
    ensures LostOk(cs[..j] + cs[j + 1..])
  {
  }

  lemma StatelessResumeKeeps(s: State, j: nat, name: nat)
    requires Inv(s) && s.task == Loading && j < |s.lost| && Stateless(s.lost[j]) && FreshName(s.clients, name)
    ensures Inv(Resume(s, j, name))
  {
    hide Resume;
    var d := s.lost[j].(name := name, restored := true, progress := 100);
    StatelessResumeFields(s, j, name);
    PrependOk(s.task, s.taskIter, d, s.clients);
    LostWithout(s.lost, j);
    OneFewerKeeps(s, [d] + s.clients, s.lost[..j] + s.lost[j + 1..], Resume(s, j, name));
  }

  /** `r` is `s` with client `d` in front of the list and one lost client fewer. */
  lemma LoadingResumeCounts(s: State, d: Client, lost: seq<Client>, taskIter: nat, r: State)
    requires Inv(s) && s.task == Loading && s.taskIter <= taskIter
    requires FreshName(s.clients, d.name) && ClientOk(Loading, taskIter, d) && Part(d) == 0 && OwesLoading(d) == 1
    requires LostOk(lost) && |lost| + 1 == |s.lost|
    requires r == s.(clients := [d] + s.clients, lost := lost, taskIter := taskIter, out := r.out)
    requires LogOf(r.out) == LogOf(s.out)
    ensures Inv(r)
  {
    assert ClientsOk(s.task, taskIter, s.clients);
    PrependOk(s.task, taskIter, d, s.clients);
  }

  lemma LoadingResumeKeeps(s: State, j: nat, name: nat)
    requires Inv(s) && s.task == Loading && j < |s.lost| && !Stateless(s.lost[j]) && FreshName(s.clients, name)
    ensures Inv(Resume(s, j, name))
  {
    hide Inv;
    var d := ResumedClient(s.lost[j], name, s.taskIter + 1);
    var r := Resume(s, j, name);
    LoadingShape(s);
    LostWithout(s.lost, j);
    LogAppend(s.out, LoadRequest(s.lost[j].id, s.taskIter + 1));
    LoadingResumeCounts(s, d, s.lost[..j] + s.lost[j + 1..], r.taskIter, r);
  }

  lemma LoadingShape(s: State)
    requires Inv(s) && s.task == Loading
    ensures LostOk(s.lost) && LogOf(s.out).Running?
  {
  }

  /** Only while a project is being loaded does anybody connect as a lost client. */
  lemma ResumesWhileLoading(s: State, pid: nat)
    requires Inv(s) && pid != 0 && IndexByPid(s.lost, pid) < |s.lost|
    ensures s.task == Loading
  {
  }

  lemma NewClientKeeps(s: State, d: Client)
    requires Inv(s) && 100 * (|s.clients| + |s.lost| + 1) < U32
    requires FreshName(s.clients, d.name) && d.pending == 0 && d.kind == NoTask && !d.restored
    ensures Inv(s.(clients := [d] + s.clients))
  {
    PrependOk(s.task, s.taskIter, d, s.clients);
  }

  lemma {:induction false} SumAppend(f: Client -> nat, cs: seq<Client>, c: Client)
    ensures Sum(f, cs + [c]) == Sum(f, cs) + f(c)
  {
    if cs == [] {
      assert [c][1..] == [];
    } else {
      assert (cs + [c])[1..] == cs[1..] + [c];
      SumAppend(f, cs[1..], c);
    }
  }

  /** A save counts exactly the clients it asks to save. */
  lemma {:induction false} BeginSaveCounts(cs: seq<Client>, task: nat)
    requires task > 0 && ClientsOk(Idle, task, cs)
    ensures Sum(Owes, BeginSaveAll(cs, task)) == CountInternal(cs) <= |cs|
    ensures Sum(Part, BeginSaveAll(cs, task)) == 0
  {
    if cs != [] {
      var init, last := cs[..|cs| - 1], BeginSave(cs[|cs| - 1], task);
      BeginSaveCounts(init, task);
      SumAppend(Owes, BeginSaveAll(init, task), last);
      SumAppend(Part, BeginSaveAll(init, task), last);
    }
  }

  lemma SaveLog(out: seq<Signal>, task: nat)
    requires LogOf(out) == Quiet
    ensures LogOf(out + [Percent(0)] + [SaveRequest(task)]) == Running(0)
    ensures LogOf(out + [Percent(0)] + [SaveRequest(task)] + [Percent(100), ProjectSaved]) == Quiet
  {
    LogAppend(out, Percent(0));
    LogAppend(out + [Percent(0)], SaveRequest(task));
    var full := out + [Percent(0)] + [SaveRequest(task)];
    LogAppend(full, Percent(100));
    LogAppend(full + [Percent(100)], ProjectSaved);
    assert full + [Percent(100)] + [ProjectSaved] == full + [Percent(100), ProjectSaved];
  }

  /** What a save needs of the project it starts from: it is idle, nobody has an open task, and the
    log stands between two tasks. Lost clients and old counters do not matter. */
  predicate SaveReady(s: State) {
    && s.task == Idle && ClientsOk(Idle, s.taskIter, s.clients) && DistinctNames(s.clients)
    && 100 * |s.clients| < U32 && LogOf(s.out) == Quiet
  }

  lemma IdleIsReady(s: State)
    requires Inv(s) && s.task == Idle
    ensures SaveReady(s)
  {
  }

  /** The state a save starts, field by field. */
  lemma SaveFields(s: State)
    requires SaveReady(s)
    ensures var r := Save(s);
            && r.clients == BeginSaveAll(s.clients, s.taskIter + 1) && r.lost == [] && r.taskIter == s.taskIter + 1
            && r.total == r.pending == CountInternal(s.clients) && r.progress == 0
            && r.task == (if r.total == 0 then Idle else Saving)
            && r.out == s.out + [Percent(0)] + [SaveRequest(r.taskIter)]
                        + (if r.total == 0 then [Percent(100), ProjectSaved] else [])
  {
    BeginSaveCounts(s.clients, s.taskIter + 1);
    assert forall k :: 0 <= k < |s.clients| ==> ClientOk(Idle, s.taskIter, s.clients[k]);
    assert !SomePending(s.clients);
  }

  lemma BeginSaveOk(cs: seq<Client>, task: nat)
    requires task > 0 && ClientsOk(Idle, task - 1, cs) && DistinctNames(cs)
    ensures ClientsOk(Saving, task, BeginSaveAll(cs, task)) && DistinctNames(BeginSaveAll(cs, task))
    ensures |BeginSaveAll(cs, task)| == |cs|
  {
    BeginSaveAllAt(cs, task);
  }

  lemma SaveKeeps(s: State)
    requires SaveReady(s)
    ensures Inv(Save(s))
  {
    var task := s.taskIter + 1;
    SaveFields(s);
    BeginSaveOk(s.clients, task);
    BeginSaveCounts(s.clients, task);
    SaveLog(s.out, task);
    if CountInternal(s.clients) == 0 { ClientsIdle(Saving, task, BeginSaveAll(s.clients, task)); }
  }

  // ------------------------------------------------------------------ signals of a step

  function Count(out: seq<Signal>, g: Signal): nat {
    multiset(out)[g]
  }

  lemma ClientProgressCounts(t: State, i: nat, percentage: nat, g: Signal)
    requires i < |t.clients| && !g.Percent?
    ensures Count(ClientProgress(t, i, percentage).out, g) == Count(t.out, g)
  {
  }

  /** The one signal a completion of this kind emits when it is the last. */
  predicate Announces(kind: Kind, g: Signal) {
    (kind.IsSave() && g == ProjectSaved) || (kind.IsRestore() && g == ProjectLoaded)
  }

  lemma CountTwo(out: seq<Signal>, a: Signal, b: Signal, g: Signal)
    requires a != b
    ensures Count(out + [a, b], g) == Count(out, g) + if g == a || g == b then 1 else 0
  {
    assert multiset([a, b]) == multiset{a, b};
  }

  /** What the last completion appends. */
  function Final(kind: Kind): seq<Signal> {
    if kind.IsSave() then [Percent(100), ProjectSaved]
    else if kind.IsRestore() then [Percent(100), ProjectLoaded]
    else []
  }

  lemma CompletedOut(t: State, i: nat)
    requires i < |t.clients|
    ensures var out := ClientProgress(t, i, 100).out;
            ProjectTaskCompleted(t, i).out == if t.pending == 1 then out + Final(t.clients[i].kind) else out
  {
  }

  lemma FinalCounts(out: seq<Signal>, kind: Kind, g: Signal)
    requires !g.Percent?
    ensures Count(out + Final(kind), g) == Count(out, g) + if Announces(kind, g) then 1 else 0
  {
    hide Count;
    if kind.IsSave() {
      CountTwo(out, Percent(100), ProjectSaved, g);
    } else if kind.IsRestore() {
      CountTwo(out, Percent(100), ProjectLoaded, g);
    } else {
      assert out + [] == out;
    }
  }

  lemma ProjectTaskCompletedCounts(t: State, i: nat, g: Signal)
    requires i < |t.clients| && !g.Percent?
    ensures Count(ProjectTaskCompleted(t, i).out, g) == Count(t.out, g)
            + if t.pending == 1 && Announces(t.clients[i].kind, g) then 1 else 0
  {
    hide *;
    CompletedOut(t, i);
    ClientProgressCounts(t, i, 100, g);
    FinalCounts(ClientProgress(t, i, 100).out, t.clients[i].kind, g);
  }

  lemma TaskCompletedCounts(s: State, i: nat, ok: bool, diskOk: bool, g: Signal)
    requires i < |s.clients| && s.clients[i].kind != NoTask && !g.Percent?
    ensures Count(TaskCompleted(s, i, ok, diskOk).out, g) == Count(TaskEffect(s, i, ok, diskOk).out, g)
            + if s.pending == 1 && Announces(s.clients[i].kind, g) then 1 else 0
  {
    var t := TaskEffect(s, i, ok, diskOk);
    assert t.pending == s.pending && t.clients[i].kind == s.clients[i].kind;
    hide TaskEffect, ProjectTaskCompleted;
    ProjectTaskCompletedCounts(t, i, g);
  }

  lemma NextKeeps(s: State, step: Step)
    requires Inv(s) && Allowed(s, step)
    ensures Inv(Next(s, step))
  {
    match step
    case SaveProject =>
      if s.task == Idle { SaveKeeps(s); }
    case Connect(pid, name, id, caps) =>
      var j := IndexByPid(s.lost, pid);
      if pid != 0 && j < |s.lost| {
        if Stateless(s.lost[j]) { StatelessResumeKeeps(s, j, name); } else { LoadingResumeKeeps(s, j, name); }
      } else {
        NewClientKeeps(s, NewClient(id, caps, pid, name));
      }
    case Report(name, task, percentage, diskOk) =>
      var i := IndexByName(s.clients, name);
      if i < |s.clients| && Accepts(s.clients[i], task) {
        if percentage == 0 || percentage == 255 {
          TaskCompletedKeeps(s, i, percentage == 255, diskOk);
        } else if percentage > s.clients[i].progress && s.clients[i].progress < 99 {
          ProgressKeeps(s, i, if percentage > 99 then 99 else percentage);
        } else if percentage > s.clients[i].progress {
          RepeatedNinetyNine(s, i, percentage, diskOk);
        }
      }
    case Commit(name, task, payload, diskOk) =>
      var i := IndexByName(s.clients, name);
      if i < |s.clients| && Accepts(s.clients[i], task) && s.clients[i].hasStore && payload.Configs? {
        TaskCompletedKeeps(s, i, payload.valid, diskOk);
      }
  }

  /** The invariant holds after every allowed run from a state in which it holds. */
  lemma {:induction false} RunKeeps(s: State, steps: seq<Step>)
    requires Inv(s) && AllowedRun(s, steps)
    ensures Inv(Run(s, steps))
  {
    if steps != [] {
      RunKeeps(s, steps[..|steps| - 1]);
      NextKeeps(Run(s, steps[..|steps| - 1]), steps[|steps| - 1]);
    }
  }
}
