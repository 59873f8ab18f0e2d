/** Control of a live migration: forced completion by post-copy or pause, the
    completion timeout, and recovery. */
module LiveMigration {

  const POST_COPY := "running (post-copy)"
  const FORCE_COMPLETE := "force-complete"
  const UNPAUSE := "unpause"

  datatype Call = Pause | StartPostcopy | GetPowerState | Resume | AbortJob

  /** A call made to libvirt and whether it succeeded. */
  datatype Made = Made(call: Call, ok: bool)

  /** Whether the k-th libvirt call succeeds. */
  type Oracle = nat -> bool

  /** The migration's status, whether the guest is paused, the queue of pending
      tasks, the queue of recovery tasks, and the libvirt calls made so far. */
  datatype Control = Control(status: string, paused: bool, tasks: seq<string>, recovery: seq<string>, calls: seq<Made>)

  // ---------------------------------------------------------------- specification

  /** A libvirt call; `paused` is the guest's state if it succeeds. */
  function Called(m: Control, call: Call, paused: bool, oracle: Oracle): Control {
    var ok := oracle(|m.calls|);
    m.(calls := m.calls + [Made(call, ok)], paused := if ok then paused else m.paused)
  }

  function LastOk(m: Control): bool {
    m.calls != [] && m.calls[|m.calls| - 1].ok
  }

  function RunTask(m: Control, task: string, postCopyEnabled: bool, oracle: Oracle): Control {
    if task != FORCE_COMPLETE || m.status == POST_COPY then m
    else if postCopyEnabled then
      var m' := Called(m, StartPostcopy, m.paused, oracle);
      if LastOk(m') then m'.(status := POST_COPY) else m'
    else
      var m' := Called(m, Pause, true, oracle);
      if LastOk(m') then m'.(recovery := m'.recovery + [UNPAUSE]) else m'
  }

  function RunTasks(m: Control, postCopyEnabled: bool, oracle: Oracle): Control
    decreases |m.tasks|
  {
    if m.tasks == [] then m
    else RunTasks(RunTask(m.(tasks := m.tasks[1..]), m.tasks[0], postCopyEnabled, oracle), postCopyEnabled, oracle)
  }

  /** The power state is read, and a paused guest resumed. */
  function RecoverTask(m: Control, task: string, oracle: Oracle): Control {
    if task != UNPAUSE then m
    else
      var m' := Called(m, GetPowerState, m.paused, oracle);
      if LastOk(m') && m'.paused then Called(m', Resume, false, oracle) else m'
  }

  function RunRecoverTasks(m: Control, oracle: Oracle): Control
    decreases |m.recovery|
  {
    if m.recovery == [] then m
    else RunRecoverTasks(RecoverTask(m.(recovery := m.recovery[1..]), m.recovery[0], oracle), oracle)
  }

  predicate ShouldTriggerTimeoutAction(elapsed: real, completionTimeout: int, status: string) {
    if completionTimeout == 0 then false
    else if status == POST_COPY then false
    else elapsed > completionTimeout as real
  }

  // ---------------------------------------------------------------- the objects

  class Deque {
    var items: seq<string>

    constructor (items: seq<string>)
      ensures this.items == items
    {
      this.items := items;
    }

    method PopLeft() returns (x: string)
      requires items != []
      modifies this
      ensures x == old(items)[0] && items == old(items)[1..]
    {
      x := items[0];
      items := items[1..];
    }

    method Append(x: string)
      modifies this
      ensures items == old(items) + [x]
    {
      items := items + [x];
    }
  }

  class Migration {
    var status: string

    constructor (status: string)
      ensures this.status == status
    {
      this.status := status;
    }
  }

  class Guest {
    const oracle: Oracle
    var paused: bool
    var calls: seq<Made>

    constructor (oracle: Oracle, paused: bool)
      ensures this.oracle == oracle && this.paused == paused && calls == []
    {
      this.oracle, this.paused, calls := oracle, paused, [];
    }

    method Invoke(call: Call, target: bool) returns (ok: bool)
      modifies this
      ensures ok == oracle(|old(calls)|) && calls == old(calls) + [Made(call, ok)]
      ensures paused == if ok then target else old(paused)
    {
      ok := oracle(|calls|);
      calls := calls + [Made(call, ok)];
      if ok {
        paused := target;
      }
    }
  }

  function Snapshot(guest: Guest, migration: Migration, tasks: Deque, recovery: Deque): Control
    reads guest, migration, tasks, recovery
  {
    Control(migration.status, guest.paused, tasks.items, recovery.items, guest.calls)
  }

  method TriggerPostcopySwitch(guest: Guest, migration: Migration)
    modifies guest, migration
    ensures guest.paused == old(guest.paused)
    ensures guest.calls == old(guest.calls) + [Made(StartPostcopy, guest.oracle(|old(guest.calls)|))]
    ensures migration.status == if guest.oracle(|old(guest.calls)|) then POST_COPY else old(migration.status)
  {
    var ok := guest.Invoke(StartPostcopy, guest.paused);
    if ok {
      migration.status := POST_COPY;
    }
  }

  method RunTasksOn(guest: Guest, tasks: Deque, onMigrationFailure: Deque, migration: Migration,
                    isPostCopyEnabled: bool)
    requires tasks != onMigrationFailure
    modifies guest, tasks, onMigrationFailure, migration
    ensures Snapshot(guest, migration, tasks, onMigrationFailure) ==
            RunTasks(old(Snapshot(guest, migration, tasks, onMigrationFailure)), isPostCopyEnabled, guest.oracle)
  {
    while tasks.items != []
      invariant RunTasks(Snapshot(guest, migration, tasks, onMigrationFailure), isPostCopyEnabled, guest.oracle) ==
                RunTasks(old(Snapshot(guest, migration, tasks, onMigrationFailure)), isPostCopyEnabled, guest.oracle)
      decreases |tasks.items|
    {
      var task := tasks.PopLeft();
      if task == FORCE_COMPLETE {
        if migration.status == POST_COPY {
        } else if isPostCopyEnabled {
          TriggerPostcopySwitch(guest, migration);
        } else {
          var ok := guest.Invoke(Pause, true);
          if ok {
            onMigrationFailure.Append(UNPAUSE);
          }
        }
      }
    }
  }

  method RunRecoverTasksOn(guest: Guest, migration: Migration, tasks: Deque, onMigrationFailure: Deque)
    requires tasks != onMigrationFailure
    modifies guest, onMigrationFailure
    ensures onMigrationFailure.items == []
    ensures Snapshot(guest, migration, tasks, onMigrationFailure) ==
            RunRecoverTasks(old(Snapshot(guest, migration, tasks, onMigrationFailure)), guest.oracle)
  {
    while onMigrationFailure.items != []
      invariant RunRecoverTasks(Snapshot(guest, migration, tasks, onMigrationFailure), guest.oracle) ==
                RunRecoverTasks(old(Snapshot(guest, migration, tasks, onMigrationFailure)), guest.oracle)
      decreases |onMigrationFailure.items|
    {
      var task := onMigrationFailure.PopLeft();
      if task == UNPAUSE {
        var ok := guest.Invoke(GetPowerState, guest.paused);
        if ok && guest.paused {
          ok := guest.Invoke(Resume, false);
        }
      }
    }
  }

  // ---------------------------------------------------------------- whole runs

  /** What one monitored migration goes through: requests from outside, and the
      monitor's iterations, which run the tasks and then look at the clock. */
  datatype Event = Request(task: string) | Iterate(elapsed: real)

  datatype Config = Config(postCopyEnabled: bool, completionTimeout: int, forceOnTimeout: bool)

  function Iteration(m: Control, elapsed: real, config: Config, oracle: Oracle): Control {
    var m' := RunTasks(m, config.postCopyEnabled, oracle);
    if !ShouldTriggerTimeoutAction(elapsed, config.completionTimeout, m'.status) then m'
    else if config.forceOnTimeout then m'.(tasks := m'.tasks + [FORCE_COMPLETE])
    else Called(m', AbortJob, m'.paused, oracle)
  }

  function Next(m: Control, e: Event, config: Config, oracle: Oracle): Control {
    match e
    case Request(task) => m.(tasks := m.tasks + [task])
    case Iterate(elapsed) => Iteration(m, elapsed, config, oracle)
  }

  function Run(m: Control, events: seq<Event>, config: Config, oracle: Oracle): Control {
    if events == [] then m
    else Next(Run(m, events[..|events| - 1], config, oracle), events[|events| - 1], config, oracle)
  }

  /** A migration that has just begun, on a running guest. */
  predicate Begun(m: Control) {
    m.status != POST_COPY && !m.paused && m.recovery == [] && m.calls == []
  }

  /** How many of the calls paused the guest. */
  function Pauses(calls: seq<Made>): nat {
    if calls == [] then 0
    else Pauses(calls[..|calls| - 1]) + if calls[|calls| - 1] == Made(Pause, true) then 1 else 0
  }

  /** Every pause has its own "unpause" queued; a paused guest is one of them. */
  ghost predicate PausesQueued(m: Control) {
    && |m.recovery| == Pauses(m.calls)
    && (forall i :: 0 <= i < |m.recovery| ==> m.recovery[i] == UNPAUSE)
    && (m.paused ==> m.recovery != [])
  }

  /** Only the way of completing that is configured is ever used. */
  ghost predicate ModeKept(m: Control, postCopyEnabled: bool) {
    && (postCopyEnabled ==> forall i :: 0 <= i < |m.calls| ==> m.calls[i].call != Pause)
    && (!postCopyEnabled ==>
          m.status != POST_COPY && forall i :: 0 <= i < |m.calls| ==> m.calls[i].call != StartPostcopy)
  }

  ghost predicate Inv(m: Control, postCopyEnabled: bool) {
    PausesQueued(m) && ModeKept(m, postCopyEnabled)
  }

  lemma CalledKeepsPauses(m: Control, call: Call, paused: bool, oracle: Oracle)
    ensures var m' := Called(m, call, paused, oracle);
      && m'.calls[..|m.calls|] == m.calls && LastOk(m') == oracle(|m.calls|)
      && Pauses(m'.calls) == Pauses(m.calls) + if call == Pause && LastOk(m') then 1 else 0
  {
  }

  lemma RunTaskKeepsInv(m: Control, task: string, postCopyEnabled: bool, oracle: Oracle)
    requires Inv(m, postCopyEnabled)
    ensures Inv(RunTask(m, task, postCopyEnabled, oracle), postCopyEnabled)
  {
    CalledKeepsPauses(m, StartPostcopy, m.paused, oracle);
    CalledKeepsPauses(m, Pause, true, oracle);
  }

  lemma {:induction false} RunTasksKeepsInv(m: Control, postCopyEnabled: bool, oracle: Oracle)
    requires Inv(m, postCopyEnabled)
    ensures Inv(RunTasks(m, postCopyEnabled, oracle), postCopyEnabled)
    ensures RunTasks(m, postCopyEnabled, oracle).tasks == []
    decreases |m.tasks|
  {
    if m.tasks != [] {
      var popped := m.(tasks := m.tasks[1..]);
      assert Inv(popped, postCopyEnabled);
      RunTaskKeepsInv(popped, m.tasks[0], postCopyEnabled, oracle);
      RunTasksKeepsInv(RunTask(popped, m.tasks[0], postCopyEnabled, oracle), postCopyEnabled, oracle);
    }
  }

  /** In every run the pauses made and the "unpause" tasks queued are equally many,
      whatever libvirt calls fail. */
  lemma {:induction false} RunKeepsInv(m: Control, events: seq<Event>, config: Config, oracle: Oracle)
    requires Begun(m)
    ensures Inv(Run(m, events, config, oracle), config.postCopyEnabled)
  {
    if events != [] {
      RunKeepsInv(m, events[..|events| - 1], config, oracle);
      var before := Run(m, events[..|events| - 1], config, oracle);
      match events[|events| - 1] {
        case Request(task) =>
        case Iterate(elapsed) =>
          RunTasksKeepsInv(before, config.postCopyEnabled, oracle);
          var ran := RunTasks(before, config.postCopyEnabled, oracle);
          CalledKeepsPauses(ran, AbortJob, ran.paused, oracle);
      }
    }
  }

  /** After the switch to post-copy nothing more is asked of the guest. */
  lemma {:induction false} PostCopyRunsNoTask(m: Control, postCopyEnabled: bool, oracle: Oracle)
    requires m.status == POST_COPY
    ensures RunTasks(m, postCopyEnabled, oracle) == m.(tasks := [])
    decreases |m.tasks|
  {
    if m.tasks != [] {
      PostCopyRunsNoTask(m.(tasks := m.tasks[1..]), postCopyEnabled, oracle);
    }
  }

  /** From post-copy on, no request and no amount of time pauses the guest, switches it
      again or aborts its job: no libvirt call is made at all. */
  lemma {:induction false} PostCopyIsFinal(m: Control, events: seq<Event>, config: Config, oracle: Oracle)
    requires m.status == POST_COPY
    ensures var m' := Run(m, events, config, oracle);
      m'.status == POST_COPY && m'.calls == m.calls && m'.paused == m.paused && m'.recovery == m.recovery
  {
    if events != [] {
      PostCopyIsFinal(m, events[..|events| - 1], config, oracle);
      PostCopyRunsNoTask(Run(m, events[..|events| - 1], config, oracle), config.postCopyEnabled, oracle);
    }
  }

  function Forced(tasks: seq<string>): nat {
    if tasks == [] then 0 else (if tasks[0] == FORCE_COMPLETE then 1 else 0) + Forced(tasks[1..])
  }

  /** Tasks that ask for nothing known are dropped. */
  lemma {:induction false} UnknownTasksIgnored(m: Control, postCopyEnabled: bool, oracle: Oracle)
    requires Forced(m.tasks) == 0
    ensures RunTasks(m, postCopyEnabled, oracle) == m.(tasks := [])
    decreases |m.tasks|
  {
    if m.tasks != [] {
      UnknownTasksIgnored(m.(tasks := m.tasks[1..]), postCopyEnabled, oracle);
    }
  }

  /** Some of the `n` calls from number `k` on succeeds. */
  predicate SomeSucceeds(oracle: Oracle, k: nat, n: nat) {
    exists j :: k <= j < k + n && oracle(j)
  }

  lemma OneMoreAttempt(oracle: Oracle, k: nat, n: nat)
    ensures SomeSucceeds(oracle, k, n + 1) <==> oracle(k) || SomeSucceeds(oracle, k + 1, n)
  {
  }

  /** How many of at most `n` attempts, from call number `k` on, are made up to the first
      that succeeds. */
  function Attempts(oracle: Oracle, k: nat, n: nat): (t: nat)
    ensures t <= n && forall j :: k <= j < k + t - 1 ==> !oracle(j)
    ensures if SomeSucceeds(oracle, k, n) then t > 0 && oracle(k + t - 1) else t == n
    decreases n
  {
    if n == 0 then 0
    else
      OneMoreAttempt(oracle, k, n - 1);
      if oracle(k) then 1 else 1 + Attempts(oracle, k + 1, n - 1)
  }

  /** Forced completions under any failures, with post-copy enabled: the switch is tried
      for one after the other up to the first that succeeds, and the status is post-copy
      if and only if one does. */
  lemma {:induction false} SwitchesUnderFailures(m: Control, oracle: Oracle)
    requires m.status != POST_COPY
    ensures var m', n, k := RunTasks(m, true, oracle), Forced(m.tasks), |m.calls|;
      && |m'.calls| == k + Attempts(oracle, k, n)
      && m'.status == if SomeSucceeds(oracle, k, n) then POST_COPY else m.status
    decreases |m.tasks|
  {
    if m.tasks != [] {
      var popped := m.(tasks := m.tasks[1..]);
      var next := RunTask(popped, m.tasks[0], true, oracle);
      if m.tasks[0] != FORCE_COMPLETE {
        SwitchesUnderFailures(popped, oracle);
      } else {
        OneMoreAttempt(oracle, |m.calls|, Forced(m.tasks[1..]));
        if oracle(|m.calls|) {
          PostCopyRunsNoTask(next, true, oracle);
        } else {
          SwitchesUnderFailures(next, oracle);
        }
      }
    }
  }

  /** They are all attempts to switch, and touch neither the guest's state nor the
      recovery queue. */
  lemma {:induction false} OnlySwitches(m: Control, oracle: Oracle)
    ensures var m' := RunTasks(m, true, oracle);
      && m.calls <= m'.calls && m'.paused == m.paused && m'.recovery == m.recovery
      && forall j :: |m.calls| <= j < |m'.calls| ==> m'.calls[j] == Made(StartPostcopy, oracle(j))
    decreases |m.tasks|
  {
    if m.tasks != [] {
      OnlySwitches(RunTask(m.(tasks := m.tasks[1..]), m.tasks[0], true, oracle), oracle);
    }
  }

  /** Without post-copy each makes one attempt to pause, and the guest ends paused if and
      only if it was or one succeeds. */
  lemma {:induction false} PausesUnderFailures(m: Control, oracle: Oracle)
    requires m.status != POST_COPY
    ensures var m', n, k := RunTasks(m, false, oracle), Forced(m.tasks), |m.calls|;
      && m.calls <= m'.calls && m'.status == m.status && |m'.calls| == k + n
      && (forall j :: k <= j < |m'.calls| ==> m'.calls[j] == Made(Pause, oracle(j)))
      && (m'.paused <==> m.paused || SomeSucceeds(oracle, k, n))
    decreases |m.tasks|
  {
    if m.tasks != [] {
      PausesUnderFailures(RunTask(m.(tasks := m.tasks[1..]), m.tasks[0], false, oracle), oracle);
      OneMoreAttempt(oracle, |m.calls|, Forced(m.tasks[1..]));
    }
  }

  /** When no call fails: with post-copy enabled the first forced completion switches,
      once, however many are asked for; otherwise each pauses and queues an "unpause". */
  lemma {:induction false} ForcedCompletion(m: Control, postCopyEnabled: bool, oracle: Oracle)
    requires m.status != POST_COPY && NoFailureFrom(oracle, |m.calls|) && Forced(m.tasks) > 0
    ensures var m' := RunTasks(m, postCopyEnabled, oracle);
      if postCopyEnabled then
        && m'.status == POST_COPY && m'.calls == m.calls + [Made(StartPostcopy, true)]
        && m'.paused == m.paused && m'.recovery == m.recovery
      else
        && m'.status == m.status && m'.paused
        && m'.calls == m.calls + seq(Forced(m.tasks), _ => Made(Pause, true))
        && m'.recovery == m.recovery + seq(Forced(m.tasks), _ => UNPAUSE)
    decreases |m.tasks|
  {
    var popped := m.(tasks := m.tasks[1..]);
    var next := RunTask(popped, m.tasks[0], postCopyEnabled, oracle);
    var k := Forced(m.tasks[1..]);
    if m.tasks[0] != FORCE_COMPLETE {
      ForcedCompletion(next, postCopyEnabled, oracle);
    } else if postCopyEnabled {
      PostCopyRunsNoTask(next, postCopyEnabled, oracle);
    } else if k == 0 {
      UnknownTasksIgnored(next, postCopyEnabled, oracle);
      assert seq(1, _ => Made(Pause, true)) == [Made(Pause, true)];
      assert seq(1, _ => UNPAUSE) == [UNPAUSE];
    } else {
      ForcedCompletion(next, postCopyEnabled, oracle);
      assert seq(k + 1, _ => Made(Pause, true)) == [Made(Pause, true)] + seq(k, _ => Made(Pause, true));
      assert seq(k + 1, _ => UNPAUSE) == [UNPAUSE] + seq(k, _ => UNPAUSE);
    }
  }

  ghost predicate NoFailureFrom(oracle: Oracle, k: nat) {
    forall j: nat :: k <= j ==> oracle(j)
  }

  // ---------------------------------------------------------------- the timeout

  /** One iteration runs the tasks and then, past a timeout that is set and unless the
      migration is in post-copy by then, aborts the job, or asks for forced completion if
      so configured; otherwise it does nothing more. */
  lemma IterationTimesOut(m: Control, elapsed: real, config: Config, oracle: Oracle)
    ensures var ran := RunTasks(m, config.postCopyEnabled, oracle);
            var m' := Iteration(m, elapsed, config, oracle);
            var late := config.completionTimeout != 0 && ran.status != "running (post-copy)"
                        && elapsed > config.completionTimeout as real;
      && ran.tasks == []
      && m'.tasks == (if late && config.forceOnTimeout then ["force-complete"] else [])
      && m'.calls == (if late && !config.forceOnTimeout then ran.calls + [Made(AbortJob, oracle(|ran.calls|))]
                      else ran.calls)
      && m'.status == ran.status && m'.paused == ran.paused && m'.recovery == ran.recovery
  {
    TasksAreDrained(m, config.postCopyEnabled, oracle);
  }

  /** Tasks never abort, and none is left. */
  lemma {:induction false} TasksAreDrained(m: Control, postCopyEnabled: bool, oracle: Oracle)
    ensures RunTasks(m, postCopyEnabled, oracle).tasks == []
    ensures Aborts(RunTasks(m, postCopyEnabled, oracle).calls) == Aborts(m.calls)
    decreases |m.tasks|
  {
    if m.tasks != [] {
      var popped := m.(tasks := m.tasks[1..]);
      var next := RunTask(popped, m.tasks[0], postCopyEnabled, oracle);
      assert next.calls == m.calls || next.calls[..|m.calls|] == m.calls;
      TasksAreDrained(next, postCopyEnabled, oracle);
    }
  }

  function Aborts(calls: seq<Made>): nat {
    if calls == [] then 0 else Aborts(calls[..|calls| - 1]) + if calls[|calls| - 1].call == AbortJob then 1 else 0
  }

  /** The event is an iteration past the timeout, not in post-copy once its tasks are run. */
  predicate Overdue(m: Control, e: Event, config: Config, oracle: Oracle) {
    && e.Iterate? && config.completionTimeout != 0 && e.elapsed > config.completionTimeout as real
    && RunTasks(m, config.postCopyEnabled, oracle).status != "running (post-copy)"
  }

  /** How many iterations of a run are overdue. */
  function OverdueIn(m: Control, events: seq<Event>, config: Config, oracle: Oracle): nat {
    if events == [] then 0
    else
      var front, last := events[..|events| - 1], events[|events| - 1];
      OverdueIn(m, front, config, oracle)
      + if Overdue(Run(m, front, config, oracle), last, config, oracle) then 1 else 0
  }

  /** A run aborts the job once for each overdue iteration, and not at all if it is
      configured to force completion. */
  lemma {:induction false} AbortsExactly(m: Control, events: seq<Event>, config: Config, oracle: Oracle)
    ensures Aborts(Run(m, events, config, oracle).calls) ==
            Aborts(m.calls) + if config.forceOnTimeout then 0 else OverdueIn(m, events, config, oracle)
  {
    if events != [] {
      var front, last := events[..|events| - 1], events[|events| - 1];
      AbortsExactly(m, front, config, oracle);
      var before := Run(m, front, config, oracle);
      if last.Iterate? {
        var ran := RunTasks(before, config.postCopyEnabled, oracle);
        TasksAreDrained(before, config.postCopyEnabled, oracle);
        IterationTimesOut(before, last.elapsed, config, oracle);
        assert (ran.calls + [Made(AbortJob, oracle(|ran.calls|))])[..|ran.calls|] == ran.calls;
      }
    }
  }

  /** The run that only takes requests and runs tasks. */
  function RunUntimed(m: Control, events: seq<Event>, postCopyEnabled: bool, oracle: Oracle): Control {
    if events == [] then m
    else
      var before := RunUntimed(m, events[..|events| - 1], postCopyEnabled, oracle);
      match events[|events| - 1]
      case Request(task) => before.(tasks := before.tasks + [task])
      case Iterate(_) => RunTasks(before, postCopyEnabled, oracle)
  }

  /** Every reading is within the timeout, or none is set. */
  predicate WithinTimeout(events: seq<Event>, config: Config) {
    config.completionTimeout == 0 ||
    forall i :: 0 <= i < |events| && events[i].Iterate? ==> events[i].elapsed <= config.completionTimeout as real
  }

  /** Within the timeout the job is never aborted, and no task is added but those asked for. */
  lemma {:induction false} WithinTimeoutUndisturbed(m: Control, events: seq<Event>, config: Config, oracle: Oracle)
    requires WithinTimeout(events, config)
    ensures Run(m, events, config, oracle) == RunUntimed(m, events, config.postCopyEnabled, oracle)
    ensures Aborts(Run(m, events, config, oracle).calls) == Aborts(m.calls)
  {
    if events != [] {
      var front, last := events[..|events| - 1], events[|events| - 1];
      WithinTimeoutUndisturbed(m, front, config, oracle);
      var before := Run(m, front, config, oracle);
      if last.Iterate? {
        TasksAreDrained(before, config.postCopyEnabled, oracle);
        IterationTimesOut(before, last.elapsed, config, oracle);
      }
    }
  }

  // ---------------------------------------------------------------- recovery

  function Unpauses(tasks: seq<string>): nat {
    if tasks == [] then 0 else (if tasks[0] == UNPAUSE then 1 else 0) + Unpauses(tasks[1..])
  }

  function Failures(calls: seq<Made>): nat {
    if calls == [] then 0 else Failures(calls[..|calls| - 1]) + if calls[|calls| - 1].ok then 0 else 1
  }

  /** `n` attempts in a row to resume a paused guest fail, from call number `k` on: the
      power state cannot be read, or it is read and the guest cannot be resumed. */
  predicate AttemptsFail(oracle: Oracle, k: nat, n: nat)
    decreases n
  {
    n == 0 || if oracle(k) then !oracle(k + 1) && AttemptsFail(oracle, k + 2, n - 1)
              else AttemptsFail(oracle, k + 1, n - 1)
  }

  /** Recovery empties the queue and never pauses. It leaves the guest paused if and only
      if it was and every "unpause" failed; then one call failed for each. */
  lemma {:induction false} RecoveryResumes(m: Control, oracle: Oracle)
    ensures var m' := RunRecoverTasks(m, oracle);
      && m'.recovery == [] && |m.calls| <= |m'.calls| && m'.status == m.status && m'.tasks == m.tasks
      && (m'.paused <==> m.paused && AttemptsFail(oracle, |m.calls|, Unpauses(m.recovery)))
      && (m'.paused ==> Failures(m'.calls) == Failures(m.calls) + Unpauses(m.recovery))
    decreases |m.recovery|
  {
    if m.recovery != [] {
      var popped := m.(recovery := m.recovery[1..]);
      var next := RecoverTask(popped, m.recovery[0], oracle);
      RecoveryResumes(next, oracle);
      if m.recovery[0] == UNPAUSE {
        var read := Called(popped, GetPowerState, popped.paused, oracle);
        assert read.calls[..|m.calls|] == m.calls;
        assert read.paused && LastOk(read) ==> next.calls[..|read.calls|] == read.calls;
      }
    }
  }

  /** A paused guest whose power state cannot be read stays paused, its "unpause" gone. */
  lemma UnreadableGuestStaysPaused(status: string)
    ensures var m := Control(status, true, [], [UNPAUSE], []);
      var m' := RunRecoverTasks(m, _ => false); m'.paused && m'.recovery == []
  {
    var m := Control(status, true, [], [UNPAUSE], []);
    var oracle: Oracle := _ => false;
    RecoveryResumes(m, oracle);
    assert Unpauses([UNPAUSE]) == 1;
    assert AttemptsFail(oracle, 0, 1);
  }

  lemma {:induction false} OnlyUnpauses(tasks: seq<string>)
    requires forall i :: 0 <= i < |tasks| ==> tasks[i] == UNPAUSE
    ensures Unpauses(tasks) == |tasks|
  {
    if tasks != [] { OnlyUnpauses(tasks[1..]); }
  }

  /** Recovery after any run leaves the guest paused if and only if the run did, and as
      many attempts to resume it fail as the run paused it. Without failures it never does. */
  lemma RecoveredGuestRuns(m: Control, events: seq<Event>, config: Config, oracle: Oracle)
    requires Begun(m)
    ensures var ran := Run(m, events, config, oracle); var m' := RunRecoverTasks(ran, oracle);
      && m'.recovery == []
      && (m'.paused <==> ran.paused && AttemptsFail(oracle, |ran.calls|, Pauses(ran.calls)))
      && (NoFailureFrom(oracle, |ran.calls|) ==> !m'.paused)
  {
    var ran := Run(m, events, config, oracle);
    RunKeepsInv(m, events, config, oracle);
    OnlyUnpauses(ran.recovery);
    RecoveryResumes(ran, oracle);
  }

  /** A guest in any run is paused only while an "unpause" is queued, and with post-copy
      enabled not at all. */
  lemma PausedMeansUnpauseQueued(m: Control, events: seq<Event>, config: Config, oracle: Oracle)
    requires Begun(m) && Run(m, events, config, oracle).paused
    ensures UNPAUSE in Run(m, events, config, oracle).recovery
    ensures !config.postCopyEnabled
  {
    RunKeepsInv(m, events, config, oracle);
    var ran := Run(m, events, config, oracle);
    assert ran.recovery[0] == UNPAUSE;
    NoPauseNoRecovery(ran.calls);
  }

  lemma {:induction false} NoPauseNoRecovery(calls: seq<Made>)
    ensures (forall i :: 0 <= i < |calls| ==> calls[i].call != Pause) ==> Pauses(calls) == 0
  {
    if calls != [] {
      NoPauseNoRecovery(calls[..|calls| - 1]);
    }
  }
}
