// The scheduled backup of dbs/schedule_runner.py: how interrupted attempts are counted in the
// schedule's own row, and why a crash cannot make the runner loop.
module Schedule {
  import opened Wrappers

  // The values of last_status that the runner distinguishes; Other is a fresh row.
  datatype Status = Running | Retrying | Interrupted | Failed | Succeeded | Other

  datatype Row = Row(status: Status, nextRunAt: Option<nat>)

  // is_due
  predicate IsDue(row: Row, now: nat) {
    row.nextRunAt.None? || row.nextRunAt.value <= now
  }

  // ----- what the statements on the row do

  // _resume: the row, and whether an unforced run goes on.
  function Resumed(row: Row, now: nat, interval: nat): (Row, bool) {
    match row.status
    case Running => (row.(status := Interrupted), true)
    case Retrying => (Row(Failed, Some(now + interval)), false)
    case _ => (row, true)
  }

  // The start of an attempt in _run.
  function Attempted(row: Row): Row {
    row.(status := if row.status.Interrupted? then Retrying else Running)
  }

  function Finished(row: Row, now: nat, interval: nat, ok: bool): Row {
    Row(if ok then Succeeded else Failed, Some(now + interval))
  }

  // ----- runs that may die between any two statements

  // Where the one runner is.  A run starts from any time read earlier: the check before the lease
  // is taken may be out of date.
  datatype Pc = Free | Entered(force: bool, now: nat) | GoingOn(force: bool, now: nat) | Attempting(force: bool, now: nat)

  // `starts` is history: the unforced attempts since next_run_at was last written.
  datatype State = State(clock: nat, row: Row, pc: Pc, starts: nat)

  datatype Action = Tick | Enter(force: bool, now: nat) | ResumeRow | StartAttempt | Leave | Finish(ok: bool) | Crash | Reschedule(next: Option<nat>)

  predicate Enabled(s: State, action: Action) {
    match action
    case Tick => true
    case Enter(_, now) => s.pc.Free? && now <= s.clock
    case ResumeRow => s.pc.Entered?
    case StartAttempt => s.pc.GoingOn? && (s.pc.force || IsDue(s.row, s.pc.now))
    case Leave => s.pc.GoingOn? && !s.pc.force && !IsDue(s.row, s.pc.now)
    case Finish(_) => s.pc.Attempting?
    case Crash => !s.pc.Free?
    case Reschedule(_) => true
  }

  function Apply(s: State, interval: nat, action: Action): State {
    match action
    case Tick => s.(clock := s.clock + 1)
    case Enter(force, now) => s.(pc := Entered(force, now))
    case ResumeRow =>
      if !s.pc.Entered? then s
      else
        var (row, goesOn) := Resumed(s.row, s.pc.now, interval);
        s.(row := row, pc := if goesOn || s.pc.force then GoingOn(s.pc.force, s.pc.now) else Free,
           starts := if s.row.status.Retrying? then 0 else s.starts)
    case StartAttempt =>
      if !s.pc.GoingOn? then s
      else s.(row := Attempted(s.row), pc := Attempting(s.pc.force, s.pc.now), starts := s.starts + if s.pc.force then 0 else 1)
    case Leave => s.(pc := Free)
    case Finish(ok) => if !s.pc.Attempting? then s else State(s.clock, Finished(s.row, s.pc.now, interval, ok), Free, 0)
    case Crash => s.(pc := Free)
    case Reschedule(next) => s.(row := s.row.(nextRunAt := next), starts := 0)
  }

  // The row remembers the attempts: one leaves a mark, and the second the last one.
  predicate Inv(s: State) {
    && s.starts <= 2
    && (s.starts == 1 ==> s.row.status.Running? || s.row.status.Retrying? || s.row.status.Interrupted?)
    && (s.starts == 2 ==> s.row.status.Retrying?)
    && (s.pc.GoingOn? ==> !s.row.status.Running? && !s.row.status.Retrying?)
    && (s.pc.Attempting? ==> s.row.status.Running? || s.row.status.Retrying?)
  }

  ghost predicate Next(interval: nat, s: State, after: State) {
    exists action :: Enabled(s, action) && after == Apply(s, interval, action)
  }

  // A sequence of states and the actions between them.
  ghost predicate Path(interval: nat, states: seq<State>, actions: seq<Action>) {
    && |states| == |actions| + 1
    && forall n :: 0 <= n < |actions| ==> Enabled(states[n], actions[n]) && states[n + 1] == Apply(states[n], interval, actions[n])
  }

  lemma PathMore(interval: nat, states: seq<State>, actions: seq<Action>, action: Action)
    requires Path(interval, states, actions) && Enabled(states[|states| - 1], action)
    ensures Path(interval, states + [Apply(states[|states| - 1], interval, action)], actions + [action])
  {
    hide Enabled, Apply;
  }

  // ----- the source's statements, as steps of that machine

  class BackupSchedule {
    var lastStatus: Status
    var nextRunAt: Option<nat>
    const interval: nat
    const enabled: bool

    function ToRow(): Row
      reads this
    {
      Row(lastStatus, nextRunAt)
    }

    constructor (interval: nat, enabled: bool)
      ensures ToRow() == Row(Other, None) && this.interval == interval && this.enabled == enabled
    {
      lastStatus, nextRunAt := Other, None;
      this.interval, this.enabled := interval, enabled;
    }

    // _resume: an attempt that died is remembered once; the second time the schedule moves on.
    method Resume(now: nat) returns (goesOn: bool)
      modifies this
      ensures goesOn <==> old(lastStatus) != Retrying
      ensures old(lastStatus) == Running ==> lastStatus == Interrupted
      ensures old(lastStatus) == Retrying ==> lastStatus == Failed
      ensures old(lastStatus) != Running && old(lastStatus) != Retrying ==> lastStatus == old(lastStatus)
      ensures nextRunAt == if goesOn then old(nextRunAt) else Some(now + interval)
    {
      if lastStatus == Running {
        lastStatus := Interrupted;
        return true;
      }
      if lastStatus == Retrying {
        lastStatus, nextRunAt := Failed, Some(now + interval);
        return false;
      }
      goesOn := true;
    }

    // _run, with what the backup itself comes to.  While the backup runs, the row is `marked`.
    method Run(now: nat, ok: bool) returns (ghost marked: Row)
      modifies this
      ensures marked.nextRunAt == old(nextRunAt)
      ensures marked.status == if old(lastStatus) == Interrupted then Retrying else Running
      ensures lastStatus == (if ok then Succeeded else Failed) && nextRunAt == Some(now + interval)
    {
      var following := now + interval;
      lastStatus := if lastStatus == Interrupted then Retrying else Running;
      marked := ToRow();
      if ok {
        lastStatus, nextRunAt := Succeeded, Some(following);
      } else {
        lastStatus, nextRunAt := Failed, Some(following);
      }
    }

    // run_due, once the runner lease is taken.  A run that does not die is a path of the machine
    // from the state before it to a free one: it enters, resumes the row, and then starts and
    // finishes an attempt or leaves.
    method RunDue(force: bool, now: nat, ok: bool, ghost before: State)
      returns (attempted: bool, ghost states: seq<State>, ghost actions: seq<Action>)
      requires before.row == ToRow() && before.pc.Free? && now <= before.clock
      modifies this
      ensures Path(interval, states, actions) && states[0] == before
      ensures states[|states| - 1].pc.Free? && states[|states| - 1].row == ToRow()
      ensures attempted ==> actions == [Enter(force, now), ResumeRow, StartAttempt, Finish(ok)]
      ensures attempted ==> states[3].pc.Attempting? && (states[3].row.status.Running? || states[3].row.status.Retrying?)
      ensures !attempted ==> StartAttempt !in actions
      ensures var due := old(nextRunAt).None? || old(nextRunAt).value <= now;
        && (attempted <==> force || (enabled && due && old(lastStatus) != Retrying))
        && nextRunAt == (if attempted || (enabled && due && old(lastStatus) == Retrying) then Some(now + interval) else old(nextRunAt))
        && (attempted ==> lastStatus == if ok then Succeeded else Failed)
        && (!attempted ==> lastStatus == if enabled && due then Failed else old(lastStatus))
    {
      states, actions := [before], [];
      if (!enabled && !force) || (!force && !IsDue(ToRow(), now)) {
        return false, states, actions;
      }
      PathMore(interval, states, actions, Enter(force, now));
      ghost var entered := Apply(before, interval, Enter(force, now));
      states, actions := [before, entered], [Enter(force, now)];
      var goesOn := Resume(now);
      PathMore(interval, states, actions, ResumeRow);
      ghost var resumed := Apply(entered, interval, ResumeRow);
      states, actions := [before, entered, resumed], [Enter(force, now), ResumeRow];
      if !goesOn && !force {
        return false, states, actions;
      }
      if !force && !IsDue(ToRow(), now) {
        PathMore(interval, states, actions, Leave);
        return false, states + [Apply(resumed, interval, Leave)], actions + [Leave];
      }
      PathMore(interval, states, actions, StartAttempt);
      ghost var attempting := Apply(resumed, interval, StartAttempt);
      states, actions := [before, entered, resumed, attempting], [Enter(force, now), ResumeRow, StartAttempt];
      ghost var marked := Run(now, ok);
      assert marked == attempting.row;
      PathMore(interval, states, actions, Finish(ok));
      states := [before, entered, resumed, attempting, Apply(attempting, interval, Finish(ok))];
      actions := [Enter(force, now), ResumeRow, StartAttempt, Finish(ok)];
      attempted := true;
    }
  }

  ghost predicate IsRun(interval: nat, states: seq<State>) {
    && |states| > 0 && states[0].pc.Free? && states[0].starts == 0
    && forall n :: 0 <= n < |states| - 1 ==> Next(interval, states[n], states[n + 1])
  }

  lemma StepKeepsInv(s: State, interval: nat, action: Action)
    requires Inv(s) && Enabled(s, action)
    ensures Inv(Apply(s, interval, action))
  {}

  // In every run, wherever the process dies, at most two unforced attempts start between two
  // changes of next_run_at; after the second one the row says so until it is resumed.
  lemma {:induction false} AtMostTwoAttempts(interval: nat, states: seq<State>)
    requires IsRun(interval, states)
    ensures |states| > 0 && Inv(states[|states| - 1])
    ensures var last := states[|states| - 1]; last.starts <= 2 && (last.starts == 2 ==> last.row.status == Retrying)
  {
    hide Next;
    if |states| > 1 {
      var n := |states| - 2;
      AtMostTwoAttempts(interval, states[..n + 1]);
      assert Next(interval, states[n], states[n + 1]);
      NextKeepsInv(interval, states[n], states[n + 1]);
    }
  }

  lemma NextKeepsInv(interval: nat, s: State, after: State)
    requires Inv(s) && Next(interval, s, after)
    ensures Inv(after)
  {
    hide Inv, Enabled, Apply;
    var action :| Enabled(s, action) && after == Apply(s, interval, action);
    StepKeepsInv(s, interval, action);
  }

  // After two interrupted attempts the next unforced run moves next_run_at one interval past its
  // time and ends there: it starts nothing.
  lemma ThirdRunOnlyMoves(interval: nat, states: seq<State>, now: nat)
    requires IsRun(interval, states)
    requires var last := states[|states| - 1]; last.pc.Free? && last.starts == 2 && now <= last.clock
    ensures var last := states[|states| - 1];
            var entered := Apply(last, interval, Enter(false, now));
            var moved := Apply(entered, interval, ResumeRow);
            && Enabled(last, Enter(false, now)) && Enabled(entered, ResumeRow) && !Enabled(entered, StartAttempt)
            && moved.pc.Free? && moved.row == Row(Failed, Some(now + interval)) && moved.starts == 0
  {
    AtMostTwoAttempts(interval, states);
    hide IsRun;
  }

  // The bound is met: two unforced attempts in a row may die.
  lemma TwoAttemptsHappen(interval: nat) returns (states: seq<State>)
    ensures IsRun(interval, states) && states[|states| - 1].starts == 2 && states[|states| - 1].pc.Free?
  {
    var s0 := State(0, Row(Other, None), Free, 0);
    var s1 := StepBy(s0, interval, Enter(false, 0));
    var s2 := StepBy(s1, interval, ResumeRow);
    var s3 := StepBy(s2, interval, StartAttempt);
    var s4 := StepBy(s3, interval, Crash);
    var s5 := StepBy(s4, interval, Enter(false, 0));
    var s6 := StepBy(s5, interval, ResumeRow);
    var s7 := StepBy(s6, interval, StartAttempt);
    var s8 := StepBy(s7, interval, Crash);
    hide Next;
    states := [s0, s1, s2, s3, s4, s5, s6, s7, s8];
  }

  lemma StepBy(s: State, interval: nat, action: Action) returns (after: State)
    requires Enabled(s, action)
    ensures after == Apply(s, interval, action) && Next(interval, s, after)
  {
    after := Apply(s, interval, action);
  }
}
