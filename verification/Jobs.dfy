// Leases, jobs and recovery (dbs/leases.py, dbs/jobs.py, dbs/audit.py, dbs/job_process.py) as a
// state machine over shared rows.  One step is one statement on the database or the reading of the
// clock before it; a process can die between any two of its steps.
module Jobs {
  import opened Wrappers

  const LEASE_SECONDS: nat := 120

  datatype Status = Running | Succeeded | Failed

  datatype Name = RunnerLease | JobLease(event: nat)

  // A lease row; released rows have no owner.
  datatype Lease = Lease(owner: Option<nat>, expires: nat)

  // Where a process is.  Each is known by its owner string, here its number.
  //   Taking: Runner.take, with the time it read; Held: the runner lease is its own.
  //   Recorded, Acquiring: inside Job.begin, after the event row and after the lease row.
  //   Working: begin has returned; Closing: the closing update ran, or raised inside `tracked`.
  //   Recovering, Deleting: inside recover, before and after the interruption of the events.
  //   Settling, Freeing: a supervisor whose child has ended, with the events still to fail, and with
  //   the runner lease still to release.
  datatype Pc =
    | Idle | Taking(now: nat) | Held
    | Recorded(event: nat) | Acquiring(event: nat, now: nat) | Working(event: nat) | Closing(event: nat, raised: bool)
    | Released(ok: bool) | Done(ok: bool) | Dead
    | Recovering(now: nat, names: set<Name>) | Deleting(now: nat, names: set<Name>)
    | Settling(child: nat, listed: seq<nat>, next: nat) | Freeing(child: nat)

  // `begun` and `dropped` are history: the events whose begin has returned, and those whose own
  // process ran its `close` after its closing update had raised.
  datatype State = State(clock: nat, leases: map<Name, Lease>, events: map<nat, Status>, pcs: map<nat, Pc>, jobOf: map<nat, nat>,
                         begun: set<nat>, dropped: set<nat>)

  datatype Action =
    | Tick
    | TakeCreate | TakeUpdate
    | Record | AcquireCreate | AcquireUpdate | Renew(name: Name)
    | Close(status: Status) | CloseRaises | DropLease | ReleaseRunner
    | Crash
    | Expired | Interrupt | Delete
    | SettleGood(child: nat) | SettleList(child: nat) | SettleFail | SettleRaises | SettleDelete | SettleRelease

  function Start(processes: set<nat>): State {
    State(0, map[], map[], map p | p in processes :: Idle, map[], {}, {})
  }

  // ----- single statements

  // get_or_create with an expired default.
  function Created(leases: map<Name, Lease>, name: Name, now: nat): map<Name, Lease> {
    if name in leases then leases else leases[name := Lease(None, now)]
  }

  predicate MayTake(lease: Lease, owner: nat, now: nat) {
    lease.expires <= now || lease.owner == Some(owner)
  }

  // The update of acquire: only an expired lease, or one's own.
  function Acquired(leases: map<Name, Lease>, name: Name, owner: nat, now: nat): map<Name, Lease> {
    if name in leases && MayTake(leases[name], owner, now) then leases[name := Lease(Some(owner), now + LEASE_SECONDS)] else leases
  }

  function Renewed(leases: map<Name, Lease>, name: Name, owner: nat, now: nat): map<Name, Lease> {
    if name in leases && leases[name].owner == Some(owner) then leases[name := Lease(Some(owner), now + LEASE_SECONDS)] else leases
  }

  function ReleasedLease(leases: map<Name, Lease>, name: Name, owner: nat, now: nat): map<Name, Lease> {
    if name in leases && leases[name].owner == Some(owner) then leases[name := Lease(None, now)] else leases
  }

  function Dropped(leases: map<Name, Lease>, name: Name, owner: nat): map<Name, Lease> {
    if name in leases && leases[name].owner == Some(owner) then leases - {name} else leases
  }

  predicate Unfinished(events: map<nat, Status>, event: nat) {
    event in events && events[event].Running?
  }

  // The guarded updates of audit: a finished event is left alone.
  function ClosedAs(events: map<nat, Status>, event: nat, status: Status): map<nat, Status> {
    if Unfinished(events, event) then events[event := status] else events
  }

  function Interrupted(events: map<nat, Status>, names: set<Name>): map<nat, Status> {
    map e | e in events :: if JobLease(e) in names && events[e].Running? then Failed else events[e]
  }

  function ExpiredJobs(leases: map<Name, Lease>, now: nat): set<Name> {
    set name | name in leases && name.JobLease? && leases[name].expires <= now
  }

  function WithoutExpired(leases: map<Name, Lease>, names: set<Name>, now: nat): map<Name, Lease> {
    map name | name in leases && !(name in names && leases[name].expires <= now) :: leases[name]
  }

  function JobLeasesOf(leases: map<Name, Lease>, owner: nat): set<Name> {
    set name | name in leases && name.JobLease? && leases[name].owner == Some(owner)
  }

  // The events of an owner's job leases, in some order.
  ghost predicate ListsJobs(listed: seq<nat>, leases: map<Name, Lease>, owner: nat) {
    forall e :: e in listed <==> JobLease(e) in JobLeasesOf(leases, owner)
  }

  // ----- the steps

  ghost predicate Enabled(s: State, p: nat, action: Action) {
    p in s.pcs && var pc := s.pcs[p];
    match action
    case Tick => true
    case TakeCreate => pc.Idle?
    case TakeUpdate => pc.Taking?
    case Record => (pc.Held? || pc.Idle?) && p !in s.jobOf
    case AcquireCreate => pc.Recorded?
    case AcquireUpdate => pc.Acquiring?
    case Renew(name) => pc.Working? && (name == RunnerLease || name == JobLease(pc.event))
    case Close(status) => pc.Working? && !status.Running?
    case CloseRaises => pc.Working?
    case DropLease => pc.Closing?
    case ReleaseRunner => pc.Released? || pc.Held?
    case Crash => !pc.Done?
    case Expired => pc.Idle?
    case Interrupt => pc.Recovering?
    case Delete => pc.Deleting?
    case SettleGood(child) => pc.Idle? && child in s.pcs && s.pcs[child] == Done(true)
    case SettleList(child) => pc.Idle? && child in s.pcs && (s.pcs[child].Dead? || s.pcs[child] == Done(false))
    case SettleFail => pc.Settling? && pc.next < |pc.listed|
    case SettleRaises => pc.Settling?
    case SettleDelete => pc.Settling? && pc.next == |pc.listed|
    case SettleRelease => pc.Freeing?
  }

  function At(s: State, p: nat, pc: Pc): State {
    s.(pcs := s.pcs[p := pc])
  }

  // The state after a step; `newEvent` is the key of Record's new row and `listed` what SettleList
  // finds.
  function Apply(s: State, p: nat, action: Action, newEvent: nat, listed: seq<nat>): State
    requires p in s.pcs
  {
    var pc := s.pcs[p];
    match action
    case Tick => s.(clock := s.clock + 1)
    case TakeCreate => At(s, p, Taking(s.clock)).(leases := Created(s.leases, RunnerLease, s.clock))
    case TakeUpdate =>
      if pc.Taking? then
        var taken := RunnerLease in s.leases && MayTake(s.leases[RunnerLease], p, pc.now);
        At(s, p, if taken then Held else Idle).(leases := Acquired(s.leases, RunnerLease, p, pc.now))
      else s
    case Record => At(s, p, Recorded(newEvent)).(events := s.events[newEvent := Running], jobOf := s.jobOf[p := newEvent])
    case AcquireCreate =>
      if pc.Recorded? then At(s, p, Acquiring(pc.event, s.clock)).(leases := Created(s.leases, JobLease(pc.event), s.clock)) else s
    case AcquireUpdate =>
      if pc.Acquiring? then
        At(s, p, Working(pc.event)).(leases := Acquired(s.leases, JobLease(pc.event), p, pc.now), begun := s.begun + {pc.event})
      else s
    case Renew(name) => s.(leases := Renewed(s.leases, name, p, s.clock))
    case Close(status) => if pc.Working? then At(s, p, Closing(pc.event, false)).(events := ClosedAs(s.events, pc.event, status)) else s
    case CloseRaises => if pc.Working? then At(s, p, Closing(pc.event, true)) else s
    case DropLease =>
      if pc.Closing? then
        At(s, p, Released(!pc.raised)).(leases := Dropped(s.leases, JobLease(pc.event), p),
                                        dropped := if pc.raised then s.dropped + {pc.event} else s.dropped)
      else s
    case ReleaseRunner =>
      At(s, p, Done(if pc.Released? then pc.ok else true)).(leases := ReleasedLease(s.leases, RunnerLease, p, s.clock))
    case Crash => At(s, p, Dead)
    case Expired => At(s, p, Recovering(s.clock, ExpiredJobs(s.leases, s.clock)))
    case Interrupt => if pc.Recovering? then At(s, p, Deleting(pc.now, pc.names)).(events := Interrupted(s.events, pc.names)) else s
    case Delete => if pc.Deleting? then At(s, p, Idle).(leases := WithoutExpired(s.leases, pc.names, pc.now)) else s
    case SettleGood(child) => At(s, p, Freeing(child)).(leases := s.leases - JobLeasesOf(s.leases, child))
    case SettleList(child) => At(s, p, Settling(child, listed, 0))
    case SettleFail =>
      if pc.Settling? && pc.next < |pc.listed| then
        At(s, p, pc.(next := pc.next + 1)).(events := ClosedAs(s.events, pc.listed[pc.next], Failed))
      else s
    case SettleRaises => At(s, p, Idle)
    case SettleDelete =>
      if pc.Settling? then At(s, p, Freeing(pc.child)).(leases := s.leases - JobLeasesOf(s.leases, pc.child)) else s
    case SettleRelease => if pc.Freeing? then At(s, p, Idle).(leases := ReleasedLease(s.leases, RunnerLease, pc.child, s.clock)) else s
  }

  // What the database chose: a new primary key, and the listing of a supervisor.
  ghost predicate Chosen(s: State, action: Action, newEvent: nat, listed: seq<nat>) {
    && (action.Record? ==> newEvent !in s.events)
    && (action.SettleList? ==> ListsJobs(listed, s.leases, action.child))
  }

  ghost predicate Next(s: State, after: State) {
    exists p: nat, action, newEvent: nat, listed ::
      p in s.pcs && Enabled(s, p, action) && Chosen(s, action, newEvent, listed) && after == Apply(s, p, action, newEvent, listed)
  }

  // ----- what every step keeps

  // A process that will never act on its job again.
  predicate Ended(s: State, p: nat) {
    p in s.pcs && (s.pcs[p].Dead? || s.pcs[p].Done?)
  }

  // Events and job leases belong together: each lease to an event, its owner to that event's process.
  ghost predicate RowsOk(s: State) {
    && (forall e :: JobLease(e) in s.leases ==> e in s.events)
    && (forall p :: p in s.jobOf ==> s.jobOf[p] in s.events && p in s.pcs)
    && (forall p, q :: p in s.jobOf && q in s.jobOf && s.jobOf[p] == s.jobOf[q] ==> p == q)
    && (forall e, o :: JobLease(e) in s.leases && s.leases[JobLease(e)].owner == Some(o) ==> o in s.jobOf && s.jobOf[o] == e)
    && s.begun <= s.events.Keys && s.dropped <= s.begun
    && (forall e :: e in s.dropped ==> JobLease(e) !in s.leases)
  }

  // The guarantee of begin, with its one exception.
  ghost predicate BegunOk(s: State) {
    && (forall e :: e in s.begun && Unfinished(s.events, e) ==> (JobLease(e) in s.leases <==> e !in s.dropped))
    && (forall e :: e in s.begun && JobLease(e) in s.leases ==> s.leases[JobLease(e)].owner.Some?)
  }

  ghost predicate NamesKnown(s: State, names: set<Name>) {
    forall e :: JobLease(e) in names ==> e in s.events
  }

  ghost predicate NamesFinished(s: State, names: set<Name>) {
    forall e :: JobLease(e) in names ==> !Unfinished(s.events, e)
  }

  ghost predicate PcOk(s: State, p: nat)
    requires p in s.pcs
  {
    var pc := s.pcs[p];
    match pc
    case Idle => p !in s.jobOf
    case Taking(now) => now <= s.clock && p !in s.jobOf
    case Held => p !in s.jobOf
    case Recorded(e) => p in s.jobOf && s.jobOf[p] == e && e !in s.begun && JobLease(e) !in s.leases
    case Acquiring(e, now) =>
      && now <= s.clock && p in s.jobOf && s.jobOf[p] == e && e !in s.begun
      && (Unfinished(s.events, e) ==> JobLease(e) in s.leases)
      && (JobLease(e) in s.leases ==> s.leases[JobLease(e)].owner.None? && s.leases[JobLease(e)].expires <= now)
    case Working(e) => p in s.jobOf && s.jobOf[p] == e && e in s.begun && e !in s.dropped
    case Closing(e, raised) => p in s.jobOf && s.jobOf[p] == e && e in s.begun && e !in s.dropped && (!raised ==> !Unfinished(s.events, e))
    case Released(ok) => ok && p in s.jobOf ==> !Unfinished(s.events, s.jobOf[p])
    case Done(ok) => ok && p in s.jobOf ==> !Unfinished(s.events, s.jobOf[p])
    case Dead => true
    case Recovering(now, names) => now <= s.clock && p !in s.jobOf && NamesKnown(s, names)
    case Deleting(now, names) => now <= s.clock && p !in s.jobOf && NamesKnown(s, names) && NamesFinished(s, names)
    case Settling(child, listed, next) =>
      && p !in s.jobOf && Ended(s, child) && next <= |listed|
      && (forall e :: JobLease(e) in JobLeasesOf(s.leases, child) ==> e in listed)
      && (forall k :: 0 <= k < next ==> !Unfinished(s.events, listed[k]) && listed[k] in s.events)
      && (forall k :: 0 <= k < |listed| ==> listed[k] in s.events)
    case Freeing(child) => p !in s.jobOf && Ended(s, child)
  }

  ghost predicate Inv(s: State) {
    RowsOk(s) && BegunOk(s) && forall p :: p in s.pcs ==> PcOk(s, p)
  }

  lemma StartIsFine(processes: set<nat>)
    ensures Inv(Start(processes))
  {}

  // What a step of one process leaves of every other.
  ghost predicate Framed(s: State, after: State, p: nat) {
    && s.clock <= after.clock && s.events.Keys <= after.events.Keys && s.pcs.Keys == after.pcs.Keys
    && (forall q :: q in s.pcs && q != p ==> after.pcs[q] == s.pcs[q])
    && (forall e :: e in s.events && !s.events[e].Running? ==> after.events[e] == s.events[e])
    && (forall q :: q != p ==> (q in after.jobOf <==> q in s.jobOf) && (q in s.jobOf ==> after.jobOf[q] == s.jobOf[q]))
    && (p in s.jobOf ==> p in after.jobOf && after.jobOf[p] == s.jobOf[p])
    && (p in after.jobOf && p !in s.jobOf ==> after.jobOf[p] !in s.events)
  }

  // Job leases change only for the process's own job, and go only when they had an owner that has
  // ended or when their event is finished; the history grows only by that job.
  ghost predicate LeasesFramed(s: State, after: State, p: nat) {
    && (forall e :: JobLease(e) in after.leases ==>
          || (JobLease(e) in s.leases && after.leases[JobLease(e)] == s.leases[JobLease(e)])
          || (p in after.jobOf && after.jobOf[p] == e))
    && (forall e :: JobLease(e) in s.leases && JobLease(e) !in after.leases ==>
          s.leases[JobLease(e)].owner.Some? || !Unfinished(after.events, e))
    && (forall e :: e in after.begun ==> e in s.begun || (p in s.jobOf && s.jobOf[p] == e))
    && (forall e :: e in after.dropped ==> e in s.dropped || (p in s.jobOf && s.jobOf[p] == e))
    && s.begun <= after.begun && (Ended(s, p) ==> after.leases == s.leases)
  }

  // The proofs go by groups of actions: recovery, settling, and of a job's own actions those on its
  // event, on the runner lease and on its own lease.
  datatype Group = Recovery | Settlement | OnEvent | OnRunner | OnLease

  function GroupOf(action: Action): Group {
    match action
    case Expired => Recovery
    case Interrupt => Recovery
    case Delete => Recovery
    case SettleGood(_) => Settlement
    case SettleList(_) => Settlement
    case SettleFail => Settlement
    case SettleRaises => Settlement
    case SettleDelete => Settlement
    case SettleRelease => Settlement
    case Record => OnEvent
    case Close(_) => OnEvent
    case CloseRaises => OnEvent
    case Crash => OnEvent
    case Tick => OnRunner
    case TakeCreate => OnRunner
    case TakeUpdate => OnRunner
    case ReleaseRunner => OnRunner
    case _ => OnLease
  }

  lemma StepIsFramed(s: State, p: nat, action: Action, newEvent: nat, listed: seq<nat>)
    requires Inv(s) && Enabled(s, p, action) && Chosen(s, action, newEvent, listed)
    ensures Framed(s, Apply(s, p, action, newEvent, listed), p)
  {
    hide *;
    match GroupOf(action)
    case Recovery => StepIsFramedByRecovery(s, p, action, newEvent, listed);
    case Settlement => StepIsFramedBySettlement(s, p, action, newEvent, listed);
    case OnEvent => StepIsFramedOnEvent(s, p, action, newEvent, listed);
    case OnRunner => StepIsFramedOnRunner(s, p, action, newEvent, listed);
    case OnLease => StepIsFramedOnLease(s, p, action, newEvent, listed);
  }

  lemma StepIsFramedByRecovery(s: State, p: nat, action: Action, newEvent: nat, listed: seq<nat>)
    requires Inv(s) && Enabled(s, p, action) && Chosen(s, action, newEvent, listed) && GroupOf(action) == Recovery
    ensures p in s.pcs && Framed(s, Apply(s, p, action, newEvent, listed), p)
  {
    assert PcOk(s, p);
    hide BegunOk, RowsOk, LeasesFramed, JobLeasesOf, ListsJobs, ClosedAs, ReleasedLease, Created, Acquired, MayTake,
         Renewed, Dropped;
  }

  lemma StepIsFramedBySettlement(s: State, p: nat, action: Action, newEvent: nat, listed: seq<nat>)
    requires Inv(s) && Enabled(s, p, action) && Chosen(s, action, newEvent, listed) && GroupOf(action) == Settlement
    ensures p in s.pcs && Framed(s, Apply(s, p, action, newEvent, listed), p)
  {
    assert PcOk(s, p);
    hide BegunOk, RowsOk, LeasesFramed, ExpiredJobs, Interrupted, WithoutExpired, Created, Acquired, MayTake,
         Renewed, Dropped;
  }

  lemma StepIsFramedOnEvent(s: State, p: nat, action: Action, newEvent: nat, listed: seq<nat>)
    requires Inv(s) && Enabled(s, p, action) && Chosen(s, action, newEvent, listed) && GroupOf(action) == OnEvent
    ensures p in s.pcs && Framed(s, Apply(s, p, action, newEvent, listed), p)
  {
    assert PcOk(s, p);
    hide BegunOk, LeasesFramed, ExpiredJobs, Interrupted, WithoutExpired, JobLeasesOf, ListsJobs, ReleasedLease,
         Created, Acquired, MayTake, Renewed, Dropped;
  }

  lemma StepIsFramedOnRunner(s: State, p: nat, action: Action, newEvent: nat, listed: seq<nat>)
    requires Inv(s) && Enabled(s, p, action) && Chosen(s, action, newEvent, listed) && GroupOf(action) == OnRunner
    ensures p in s.pcs && Framed(s, Apply(s, p, action, newEvent, listed), p)
  {
    assert PcOk(s, p);
    hide BegunOk, LeasesFramed, ExpiredJobs, Interrupted, WithoutExpired, JobLeasesOf, ListsJobs, ClosedAs, Renewed,
         Dropped;
  }

  lemma StepIsFramedOnLease(s: State, p: nat, action: Action, newEvent: nat, listed: seq<nat>)
    requires Inv(s) && Enabled(s, p, action) && Chosen(s, action, newEvent, listed) && GroupOf(action) == OnLease
    ensures p in s.pcs && Framed(s, Apply(s, p, action, newEvent, listed), p)
  {
    assert PcOk(s, p);
    hide BegunOk, LeasesFramed, ExpiredJobs, Interrupted, WithoutExpired, JobLeasesOf, ListsJobs, ClosedAs,
         ReleasedLease;
  }

  lemma LeasesAreFramed(s: State, p: nat, action: Action, newEvent: nat, listed: seq<nat>)
    requires Inv(s) && Enabled(s, p, action) && Chosen(s, action, newEvent, listed)
    ensures LeasesFramed(s, Apply(s, p, action, newEvent, listed), p)
  {
    hide *;
    match GroupOf(action)
    case Recovery => LeasesAreFramedByRecovery(s, p, action, newEvent, listed);
    case Settlement => LeasesAreFramedBySettlement(s, p, action, newEvent, listed);
    case OnEvent => LeasesAreFramedOnEvent(s, p, action, newEvent, listed);
    case OnRunner => LeasesAreFramedOnRunner(s, p, action, newEvent, listed);
    case OnLease => LeasesAreFramedOnLease(s, p, action, newEvent, listed);
  }

  lemma LeasesAreFramedByRecovery(s: State, p: nat, action: Action, newEvent: nat, listed: seq<nat>)
    requires Inv(s) && Enabled(s, p, action) && Chosen(s, action, newEvent, listed) && GroupOf(action) == Recovery
    ensures p in s.pcs && LeasesFramed(s, Apply(s, p, action, newEvent, listed), p)
  {
    assert PcOk(s, p);
    hide RowsOk, BegunOk, JobLeasesOf, ListsJobs, ClosedAs, ReleasedLease, Created, Acquired, MayTake, Renewed,
         Dropped;
  }

  lemma LeasesAreFramedBySettlement(s: State, p: nat, action: Action, newEvent: nat, listed: seq<nat>)
    requires Inv(s) && Enabled(s, p, action) && Chosen(s, action, newEvent, listed) && GroupOf(action) == Settlement
    ensures p in s.pcs && LeasesFramed(s, Apply(s, p, action, newEvent, listed), p)
  {
    assert PcOk(s, p);
    hide RowsOk, BegunOk, ExpiredJobs, Interrupted, WithoutExpired, Created, Acquired, MayTake, Renewed, Dropped;
  }

  lemma LeasesAreFramedOnEvent(s: State, p: nat, action: Action, newEvent: nat, listed: seq<nat>)
    requires Inv(s) && Enabled(s, p, action) && Chosen(s, action, newEvent, listed) && GroupOf(action) == OnEvent
    ensures p in s.pcs && LeasesFramed(s, Apply(s, p, action, newEvent, listed), p)
  {
    assert PcOk(s, p);
    hide RowsOk, BegunOk, ExpiredJobs, Interrupted, WithoutExpired, JobLeasesOf, ListsJobs, ReleasedLease, Created,
         Acquired, MayTake, Renewed, Dropped;
  }

  lemma LeasesAreFramedOnRunner(s: State, p: nat, action: Action, newEvent: nat, listed: seq<nat>)
    requires Inv(s) && Enabled(s, p, action) && Chosen(s, action, newEvent, listed) && GroupOf(action) == OnRunner
    ensures p in s.pcs && LeasesFramed(s, Apply(s, p, action, newEvent, listed), p)
  {
    assert PcOk(s, p);
    hide RowsOk, BegunOk, ExpiredJobs, Interrupted, WithoutExpired, JobLeasesOf, ListsJobs, ClosedAs, Renewed,
         Dropped;
  }

  lemma LeasesAreFramedOnLease(s: State, p: nat, action: Action, newEvent: nat, listed: seq<nat>)
    requires Inv(s) && Enabled(s, p, action) && Chosen(s, action, newEvent, listed) && GroupOf(action) == OnLease
    ensures p in s.pcs && LeasesFramed(s, Apply(s, p, action, newEvent, listed), p)
  {
    assert PcOk(s, p);
    hide RowsOk, BegunOk, ExpiredJobs, Interrupted, WithoutExpired, JobLeasesOf, ListsJobs, ClosedAs, ReleasedLease;
  }

  lemma RowsKept(s: State, p: nat, action: Action, newEvent: nat, listed: seq<nat>)
    requires Inv(s) && Enabled(s, p, action) && Chosen(s, action, newEvent, listed)
    ensures RowsOk(Apply(s, p, action, newEvent, listed))
  {
    hide *;
    match GroupOf(action)
    case Recovery => RowsKeptByRecovery(s, p, action, newEvent, listed);
    case Settlement => RowsKeptBySettlement(s, p, action, newEvent, listed);
    case OnEvent => RowsKeptOnEvent(s, p, action, newEvent, listed);
    case OnRunner => RowsKeptOnRunner(s, p, action, newEvent, listed);
    case OnLease => RowsKeptOnLease(s, p, action, newEvent, listed);
  }

  lemma RowsKeptByRecovery(s: State, p: nat, action: Action, newEvent: nat, listed: seq<nat>)
    requires Inv(s) && Enabled(s, p, action) && Chosen(s, action, newEvent, listed) && GroupOf(action) == Recovery
    ensures p in s.pcs && RowsOk(Apply(s, p, action, newEvent, listed))
  {
    hide BegunOk, PcOk, JobLeasesOf, ListsJobs, ClosedAs, ReleasedLease, Created, Acquired, MayTake, Renewed, Dropped;
  }

  lemma RowsKeptBySettlement(s: State, p: nat, action: Action, newEvent: nat, listed: seq<nat>)
    requires Inv(s) && Enabled(s, p, action) && Chosen(s, action, newEvent, listed) && GroupOf(action) == Settlement
    ensures p in s.pcs && RowsOk(Apply(s, p, action, newEvent, listed))
  {
    hide BegunOk, PcOk, ExpiredJobs, Interrupted, WithoutExpired, Created, Acquired, MayTake, Renewed, Dropped;
  }

  lemma RowsKeptOnEvent(s: State, p: nat, action: Action, newEvent: nat, listed: seq<nat>)
    requires Inv(s) && Enabled(s, p, action) && Chosen(s, action, newEvent, listed) && GroupOf(action) == OnEvent
    ensures p in s.pcs && RowsOk(Apply(s, p, action, newEvent, listed))
  {
    assert PcOk(s, p);
    hide BegunOk, NamesKnown, NamesFinished, ExpiredJobs, Interrupted, WithoutExpired, JobLeasesOf, ListsJobs,
         ReleasedLease, Created, Acquired, MayTake, Renewed, Dropped;
  }

  lemma RowsKeptOnRunner(s: State, p: nat, action: Action, newEvent: nat, listed: seq<nat>)
    requires Inv(s) && Enabled(s, p, action) && Chosen(s, action, newEvent, listed) && GroupOf(action) == OnRunner
    ensures p in s.pcs && RowsOk(Apply(s, p, action, newEvent, listed))
  {
    assert PcOk(s, p);
    hide BegunOk, NamesKnown, NamesFinished, ExpiredJobs, Interrupted, WithoutExpired, JobLeasesOf, ListsJobs,
         ClosedAs, Renewed, Dropped;
  }

  lemma RowsKeptOnLease(s: State, p: nat, action: Action, newEvent: nat, listed: seq<nat>)
    requires Inv(s) && Enabled(s, p, action) && Chosen(s, action, newEvent, listed) && GroupOf(action) == OnLease
    ensures p in s.pcs && RowsOk(Apply(s, p, action, newEvent, listed))
  {
    OnLeaseActions(action);
    hide *;
    if action.DropLease? {
      RowsKeptOnDrop(s, p, newEvent, listed);
    } else {
      RowsKeptOnHold(s, p, action, newEvent, listed);
    }
  }

  lemma OnLeaseActions(action: Action)
    requires GroupOf(action) == OnLease
    ensures action.AcquireCreate? || action.AcquireUpdate? || action.Renew? || action.DropLease?
  {}

  lemma RowsKeptOnHold(s: State, p: nat, action: Action, newEvent: nat, listed: seq<nat>)
    requires Inv(s) && Enabled(s, p, action) && (action.AcquireCreate? || action.AcquireUpdate? || action.Renew?)
    ensures p in s.pcs && RowsOk(Apply(s, p, action, newEvent, listed))
  {
    assert PcOk(s, p);
    hide BegunOk, NamesKnown, NamesFinished, ExpiredJobs, Interrupted, WithoutExpired, JobLeasesOf, ListsJobs,
         ClosedAs, ReleasedLease, Dropped;
  }

  lemma RowsKeptOnDrop(s: State, p: nat, newEvent: nat, listed: seq<nat>)
    requires Inv(s) && Enabled(s, p, DropLease)
    ensures p in s.pcs && RowsOk(Apply(s, p, DropLease, newEvent, listed))
  {
    assert PcOk(s, p);
    hide NamesKnown, NamesFinished, ExpiredJobs, Interrupted, WithoutExpired, JobLeasesOf, ListsJobs,
         ClosedAs, ReleasedLease, Created, Acquired, MayTake, Renewed;
  }

  lemma BegunKept(s: State, p: nat, action: Action, newEvent: nat, listed: seq<nat>)
    requires Inv(s) && Enabled(s, p, action) && Chosen(s, action, newEvent, listed)
    ensures BegunOk(Apply(s, p, action, newEvent, listed))
  {
    hide *;
    match GroupOf(action)
    case Recovery => BegunKeptByRecovery(s, p, action, newEvent, listed);
    case Settlement => BegunKeptBySettlement(s, p, action, newEvent, listed);
    case OnEvent => BegunKeptOnEvent(s, p, action, newEvent, listed);
    case OnRunner => BegunKeptOnRunner(s, p, action, newEvent, listed);
    case OnLease => BegunKeptOnLease(s, p, action, newEvent, listed);
  }

  lemma BegunKeptByRecovery(s: State, p: nat, action: Action, newEvent: nat, listed: seq<nat>)
    requires Inv(s) && Enabled(s, p, action) && Chosen(s, action, newEvent, listed) && GroupOf(action) == Recovery
    ensures p in s.pcs && BegunOk(Apply(s, p, action, newEvent, listed))
  {
    assert PcOk(s, p);
    hide LeasesFramed, JobLeasesOf, ListsJobs, ClosedAs, ReleasedLease, Created, Acquired, MayTake, Renewed, Dropped;
  }

  lemma BegunKeptBySettlement(s: State, p: nat, action: Action, newEvent: nat, listed: seq<nat>)
    requires Inv(s) && Enabled(s, p, action) && Chosen(s, action, newEvent, listed) && GroupOf(action) == Settlement
    ensures p in s.pcs && BegunOk(Apply(s, p, action, newEvent, listed))
  {
    assert PcOk(s, p);
    assert action.SettleGood? ==> PcOk(s, action.child);
    hide LeasesFramed, ExpiredJobs, Interrupted, WithoutExpired, Created, Acquired, MayTake, Renewed, Dropped;
  }

  lemma BegunKeptOnEvent(s: State, p: nat, action: Action, newEvent: nat, listed: seq<nat>)
    requires Inv(s) && Enabled(s, p, action) && Chosen(s, action, newEvent, listed) && GroupOf(action) == OnEvent
    ensures p in s.pcs && BegunOk(Apply(s, p, action, newEvent, listed))
  {
    assert PcOk(s, p);
    hide NamesKnown, NamesFinished, ExpiredJobs, Interrupted, WithoutExpired, JobLeasesOf, ListsJobs, ReleasedLease,
         Created, Acquired, MayTake, Renewed, Dropped;
  }

  lemma BegunKeptOnRunner(s: State, p: nat, action: Action, newEvent: nat, listed: seq<nat>)
    requires Inv(s) && Enabled(s, p, action) && Chosen(s, action, newEvent, listed) && GroupOf(action) == OnRunner
    ensures p in s.pcs && BegunOk(Apply(s, p, action, newEvent, listed))
  {
    assert PcOk(s, p);
    hide NamesKnown, NamesFinished, ExpiredJobs, Interrupted, WithoutExpired, JobLeasesOf, ListsJobs, ClosedAs,
         Renewed, Dropped;
  }

  lemma BegunKeptOnLease(s: State, p: nat, action: Action, newEvent: nat, listed: seq<nat>)
    requires Inv(s) && Enabled(s, p, action) && Chosen(s, action, newEvent, listed) && GroupOf(action) == OnLease
    ensures p in s.pcs && BegunOk(Apply(s, p, action, newEvent, listed))
  {
    OnLeaseActions(action);
    hide *;
    if action.DropLease? {
      BegunKeptOnDrop(s, p, newEvent, listed);
    } else {
      BegunKeptOnHold(s, p, action, newEvent, listed);
    }
  }

  lemma BegunKeptOnHold(s: State, p: nat, action: Action, newEvent: nat, listed: seq<nat>)
    requires Inv(s) && Enabled(s, p, action) && (action.AcquireCreate? || action.AcquireUpdate? || action.Renew?)
    ensures p in s.pcs && BegunOk(Apply(s, p, action, newEvent, listed))
  {
    assert PcOk(s, p);
    hide NamesKnown, NamesFinished, ExpiredJobs, Interrupted, WithoutExpired, JobLeasesOf, ListsJobs, ClosedAs, ReleasedLease, Dropped;
  }

  lemma BegunKeptOnDrop(s: State, p: nat, newEvent: nat, listed: seq<nat>)
    requires Inv(s) && Enabled(s, p, DropLease)
    ensures p in s.pcs && BegunOk(Apply(s, p, DropLease, newEvent, listed))
  {
    assert PcOk(s, p);
    hide NamesKnown, NamesFinished, ExpiredJobs, Interrupted, WithoutExpired, JobLeasesOf, ListsJobs, ClosedAs, ReleasedLease,
         Created, Acquired, MayTake, Renewed;
  }

  lemma OwnPcKept(s: State, p: nat, action: Action, newEvent: nat, listed: seq<nat>)
    requires Inv(s) && Enabled(s, p, action) && Chosen(s, action, newEvent, listed)
    ensures p in Apply(s, p, action, newEvent, listed).pcs && PcOk(Apply(s, p, action, newEvent, listed), p)
  {
    hide *;
    match GroupOf(action)
    case Recovery => OwnPcKeptByRecovery(s, p, action, newEvent, listed);
    case Settlement => OwnPcKeptBySettlement(s, p, action, newEvent, listed);
    case OnEvent => OwnPcKeptOnEvent(s, p, action, newEvent, listed);
    case OnRunner => OwnPcKeptOnRunner(s, p, action, newEvent, listed);
    case OnLease => OwnPcKeptOnLease(s, p, action, newEvent, listed);
  }

  lemma OwnPcKeptByRecovery(s: State, p: nat, action: Action, newEvent: nat, listed: seq<nat>)
    requires Inv(s) && Enabled(s, p, action) && Chosen(s, action, newEvent, listed) && GroupOf(action) == Recovery
    ensures p in s.pcs && p in Apply(s, p, action, newEvent, listed).pcs && PcOk(Apply(s, p, action, newEvent, listed), p)
  {
    assert PcOk(s, p);
    hide BegunOk, ListsJobs, ClosedAs, ReleasedLease, Created, Acquired, MayTake, Renewed, Dropped;
  }

  lemma OwnPcKeptBySettlement(s: State, p: nat, action: Action, newEvent: nat, listed: seq<nat>)
    requires Inv(s) && Enabled(s, p, action) && Chosen(s, action, newEvent, listed) && GroupOf(action) == Settlement
    ensures p in s.pcs && p in Apply(s, p, action, newEvent, listed).pcs && PcOk(Apply(s, p, action, newEvent, listed), p)
  {
    hide *;
    if action.SettleFail? {
      OwnPcKeptOnFail(s, p, newEvent, listed);
    } else {
      OwnPcKeptOnSettle(s, p, action, newEvent, listed);
    }
  }

  lemma OwnPcKeptOnFail(s: State, p: nat, newEvent: nat, listed: seq<nat>)
    requires Inv(s) && Enabled(s, p, SettleFail)
    ensures p in s.pcs && p in Apply(s, p, SettleFail, newEvent, listed).pcs && PcOk(Apply(s, p, SettleFail, newEvent, listed), p)
  {
    assert PcOk(s, p);
    hide BegunOk, RowsOk, JobLeasesOf, ExpiredJobs, Interrupted, WithoutExpired, Created, Acquired, MayTake, Renewed, Dropped;
  }

  lemma OwnPcKeptOnSettle(s: State, p: nat, action: Action, newEvent: nat, listed: seq<nat>)
    requires Inv(s) && Enabled(s, p, action) && Chosen(s, action, newEvent, listed) && GroupOf(action) == Settlement && !action.SettleFail?
    ensures p in s.pcs && p in Apply(s, p, action, newEvent, listed).pcs && PcOk(Apply(s, p, action, newEvent, listed), p)
  {
    if action.SettleList? {
      OwnPcKeptOnList(s, p, action.child, newEvent, listed);
    } else {
      assert PcOk(s, p);
    }
    hide BegunOk, RowsOk, ListsJobs, JobLeasesOf, ClosedAs, ExpiredJobs, Interrupted, WithoutExpired, Created, Acquired, MayTake,
         Renewed, Dropped;
  }

  lemma OwnPcKeptOnList(s: State, p: nat, child: nat, newEvent: nat, listed: seq<nat>)
    requires Inv(s) && Enabled(s, p, SettleList(child)) && Chosen(s, SettleList(child), newEvent, listed)
    ensures p in s.pcs && p in Apply(s, p, SettleList(child), newEvent, listed).pcs
    ensures PcOk(Apply(s, p, SettleList(child), newEvent, listed), p)
  {
    assert PcOk(s, p);
    ListedAreEvents(s, child, listed);
    hide BegunOk, RowsOk, ListsJobs, JobLeasesOf, ClosedAs, ExpiredJobs, Interrupted, WithoutExpired, Created, Acquired, MayTake,
         Renewed, Dropped;
  }

  lemma ListedAreEvents(s: State, child: nat, listed: seq<nat>)
    requires RowsOk(s) && ListsJobs(listed, s.leases, child)
    ensures forall k :: 0 <= k < |listed| ==> listed[k] in s.events
    ensures forall e :: JobLease(e) in JobLeasesOf(s.leases, child) ==> e in listed
  {}

  lemma OwnPcKeptOnEvent(s: State, p: nat, action: Action, newEvent: nat, listed: seq<nat>)
    requires Inv(s) && Enabled(s, p, action) && Chosen(s, action, newEvent, listed) && GroupOf(action) == OnEvent
    ensures p in s.pcs && p in Apply(s, p, action, newEvent, listed).pcs && PcOk(Apply(s, p, action, newEvent, listed), p)
  {
    assert PcOk(s, p);
    hide BegunOk, ExpiredJobs, Interrupted, WithoutExpired, ListsJobs, ReleasedLease, Created, Acquired, MayTake,
         Renewed, Dropped;
  }

  lemma OwnPcKeptOnRunner(s: State, p: nat, action: Action, newEvent: nat, listed: seq<nat>)
    requires Inv(s) && Enabled(s, p, action) && Chosen(s, action, newEvent, listed) && GroupOf(action) == OnRunner
    ensures p in s.pcs && p in Apply(s, p, action, newEvent, listed).pcs && PcOk(Apply(s, p, action, newEvent, listed), p)
  {
    assert PcOk(s, p);
    hide BegunOk, ExpiredJobs, Interrupted, WithoutExpired, ListsJobs, ClosedAs, Renewed, Dropped;
  }

  lemma OwnPcKeptOnLease(s: State, p: nat, action: Action, newEvent: nat, listed: seq<nat>)
    requires Inv(s) && Enabled(s, p, action) && Chosen(s, action, newEvent, listed) && GroupOf(action) == OnLease
    ensures p in s.pcs && p in Apply(s, p, action, newEvent, listed).pcs && PcOk(Apply(s, p, action, newEvent, listed), p)
  {
    assert PcOk(s, p);
    hide BegunOk, ExpiredJobs, Interrupted, WithoutExpired, ListsJobs, ClosedAs, ReleasedLease;
  }

  lemma OtherPcKept(s: State, p: nat, action: Action, newEvent: nat, listed: seq<nat>, q: nat)
    requires Inv(s) && Enabled(s, p, action) && Chosen(s, action, newEvent, listed) && q in s.pcs && q != p
    ensures q in Apply(s, p, action, newEvent, listed).pcs && PcOk(Apply(s, p, action, newEvent, listed), q)
  {
    assert PcOk(s, q);
    hide Apply, Enabled, BegunOk, RowsOk, PcOk, Framed, LeasesFramed, Ended, Chosen;
    StepIsFramed(s, p, action, newEvent, listed);
    LeasesAreFramed(s, p, action, newEvent, listed);
    EndedStays(s, p, action, newEvent, listed);
    RowsKept(s, p, action, newEvent, listed);
    FramedStaysOk(s, Apply(s, p, action, newEvent, listed), p, q);
  }

  predicate OnJob(pc: Pc) {
    pc.Recorded? || pc.Acquiring? || pc.Working? || pc.Closing? || pc.Released? || pc.Done?
  }

  lemma FramedStaysOk(s: State, after: State, p: nat, q: nat)
    requires RowsOk(s) && RowsOk(after) && q in s.pcs && PcOk(s, q) && q != p && Framed(s, after, p) && LeasesFramed(s, after, p)
    requires forall child :: Ended(s, child) ==> Ended(after, child)
    ensures q in after.pcs && PcOk(after, q)
  {
    hide *;
    if OnJob(s.pcs[q]) {
      FramedJobStaysOk(s, after, p, q);
    } else {
      FramedHelperStaysOk(s, after, p, q);
    }
  }

  lemma FramedJobStaysOk(s: State, after: State, p: nat, q: nat)
    requires RowsOk(s) && RowsOk(after) && q in s.pcs && PcOk(s, q) && q != p && Framed(s, after, p) && LeasesFramed(s, after, p)
    requires OnJob(s.pcs[q])
    ensures q in after.pcs && PcOk(after, q)
  {
    hide Ended, NamesKnown, NamesFinished, JobLeasesOf;
  }

  lemma FramedHelperStaysOk(s: State, after: State, p: nat, q: nat)
    requires RowsOk(s) && RowsOk(after) && q in s.pcs && PcOk(s, q) && q != p && Framed(s, after, p) && LeasesFramed(s, after, p)
    requires !OnJob(s.pcs[q])
    requires forall child :: Ended(s, child) ==> Ended(after, child)
    ensures q in after.pcs && PcOk(after, q)
  {
    hide Ended, JobLeasesOf;
    if s.pcs[q].Settling? {
      ListedStay(s, after, p, s.pcs[q].child);
    }
    hide RowsOk, LeasesFramed;
  }

  // A job lease of a process that has ended stays its own until it goes, and none is added to it.
  lemma ListedStay(s: State, after: State, p: nat, child: nat)
    requires RowsOk(after) && Framed(s, after, p) && LeasesFramed(s, after, p) && Ended(s, child)
    ensures forall e :: JobLease(e) in JobLeasesOf(after.leases, child) ==> JobLease(e) in JobLeasesOf(s.leases, child)
  {}

  lemma EndedStays(s: State, p: nat, action: Action, newEvent: nat, listed: seq<nat>)
    requires Enabled(s, p, action) && p in s.pcs
    ensures forall child :: Ended(s, child) ==> Ended(Apply(s, p, action, newEvent, listed), child)
  {
    hide Created, Acquired, Renewed, ReleasedLease, Dropped, ClosedAs, Interrupted, WithoutExpired, ExpiredJobs, JobLeasesOf;
  }

  lemma StepKeepsInv(s: State, p: nat, action: Action, newEvent: nat, listed: seq<nat>)
    requires Inv(s) && Enabled(s, p, action) && Chosen(s, action, newEvent, listed)
    ensures Inv(Apply(s, p, action, newEvent, listed))
  {
    hide Apply, RowsOk, BegunOk, PcOk, Chosen;
    var after := Apply(s, p, action, newEvent, listed);
    RowsKept(s, p, action, newEvent, listed);
    BegunKept(s, p, action, newEvent, listed);
    StepIsFramed(s, p, action, newEvent, listed);
    forall q | q in after.pcs ensures PcOk(after, q) {
      if q == p {
        OwnPcKept(s, p, action, newEvent, listed);
      } else {
        OtherPcKept(s, p, action, newEvent, listed, q);
      }
    }
  }

  // ----- all runs

  ghost predicate IsRun(states: seq<State>) {
    && |states| > 0 && (exists processes :: states[0] == Start(processes))
    && forall n :: 0 <= n < |states| - 1 ==> Next(states[n], states[n + 1])
  }

  lemma NextKeepsInv(s: State, after: State)
    requires Inv(s) && Next(s, after)
    ensures Inv(after)
  {
    hide Inv, Enabled, Apply, Chosen;
    var p: nat, action, newEvent: nat, listed :|
      p in s.pcs && Enabled(s, p, action) && Chosen(s, action, newEvent, listed) && after == Apply(s, p, action, newEvent, listed);
    StepKeepsInv(s, p, action, newEvent, listed);
  }

  lemma {:induction false} RunKeepsInv(states: seq<State>)
    requires IsRun(states)
    ensures |states| > 0 && Inv(states[|states| - 1])
  {
    hide Inv, Next, Start;
    if |states| == 1 {
      var processes :| states[0] == Start(processes);
      StartIsFine(processes);
    } else {
      var n := |states| - 2;
      RunKeepsInv(states[..n + 1]);
      assert Next(states[n], states[n + 1]);
      NextKeepsInv(states[n], states[n + 1]);
    }
  }

  // In every run, once Job.begin has returned, an unfinished event still has its job lease, unless
  // its own process deleted the lease after its closing update had raised; then it has none.
  lemma BegunJobsAreCovered(states: seq<State>, event: nat)
    requires IsRun(states) && event in states[|states| - 1].begun
    ensures var last := states[|states| - 1];
            Unfinished(last.events, event) ==> (JobLease(event) in last.leases <==> event !in last.dropped)
  {
    hide IsRun, RowsOk, PcOk;
    RunKeepsInv(states);
  }

  // A finished event never changes again.
  lemma {:induction false} FinishedForGood(states: seq<State>, i: nat, j: nat, event: nat)
    requires IsRun(states) && i <= j < |states| && event in states[i].events && !states[i].events[event].Running?
    ensures event in states[j].events && states[j].events[event] == states[i].events[event]
    decreases j
  {
    hide Next, Inv;
    if i < j {
      FinishedForGood(states, i, j - 1, event);
      RunKeepsInv(states[..j]);
      assert states[..j][j - 1] == states[j - 1];
      assert Next(states[j - 1], states[j]);
      FinishedStays(states[j - 1], states[j], event);
    }
  }

  lemma FinishedStays(s: State, after: State, event: nat)
    requires Inv(s) && Next(s, after) && event in s.events && !s.events[event].Running?
    ensures event in after.events && after.events[event] == s.events[event]
  {
    hide Inv, Enabled, Apply, Chosen;
    var p: nat, action, newEvent: nat, listed :|
      p in s.pcs && Enabled(s, p, action) && Chosen(s, action, newEvent, listed) && after == Apply(s, p, action, newEvent, listed);
    StepIsFramed(s, p, action, newEvent, listed);
  }

  // ----- a recovery finishes what it finds

  datatype Step = Step(process: nat, action: Action, newEvent: nat, listed: seq<nat>)

  ghost predicate Taken(s: State, step: Step, after: State) {
    && step.process in s.pcs && Enabled(s, step.process, step.action) && Chosen(s, step.action, step.newEvent, step.listed)
    && after == Apply(s, step.process, step.action, step.newEvent, step.listed)
  }

  ghost predicate Steps(states: seq<State>, steps: seq<Step>) {
    |states| == |steps| + 1 && forall k :: 0 <= k < |steps| ==> Taken(states[k], steps[k], states[k + 1])
  }

  lemma StepAt(states: seq<State>, steps: seq<Step>, n: nat)
    requires Steps(states, steps) && n < |steps|
    ensures |states| == |steps| + 1 && steps[n].process in states[n].pcs && Enabled(states[n], steps[n].process, steps[n].action)
    ensures Chosen(states[n], steps[n].action, steps[n].newEvent, steps[n].listed)
    ensures states[n + 1] == Apply(states[n], steps[n].process, steps[n].action, steps[n].newEvent, steps[n].listed)
  {
    hide Apply, Enabled, Chosen;
    assert Taken(states[n], steps[n], states[n + 1]);
  }

  lemma InvAt(states: seq<State>, n: nat)
    requires IsRun(states) && n < |states|
    ensures Inv(states[n])
  {
    hide Inv, Next, Start;
    var front := states[..n + 1];
    assert forall k :: 0 <= k < |front| - 1 ==> Next(states[k], states[k + 1]);
    RunKeepsInv(front);
  }

  // Rows of events are never removed.
  lemma {:induction false} EventsStay(states: seq<State>, steps: seq<Step>, i: nat, j: nat, event: nat)
    requires IsRun(states) && Steps(states, steps) && i <= j < |states| && event in states[i].events
    ensures event in states[j].events
    decreases j
  {
    hide *;
    if i < j {
      EventsStay(states, steps, i, j - 1, event);
      StepsSize(states, steps);
      var step := steps[j - 1];
      StepAt(states, steps, j - 1);
      InvAt(states, j - 1);
      StepIsFramed(states[j - 1], step.process, step.action, step.newEvent, step.listed);
      FramedMeans(states[j - 1], states[j], step.process);
    }
  }

  lemma StepsSize(states: seq<State>, steps: seq<Step>)
    requires Steps(states, steps)
    ensures |states| == |steps| + 1
  {}

  lemma FramedMeans(s: State, after: State, p: nat)
    requires Framed(s, after, p)
    ensures s.events.Keys <= after.events.Keys && s.pcs.Keys == after.pcs.Keys
    ensures forall q :: q in s.pcs && q != p ==> after.pcs[q] == s.pcs[q]
  {}

  predicate InterruptsFor(step: Step, p: nat) {
    step.process == p && step.action == Interrupt
  }

  // Between its reading of the leases and its interruption a process is there or has died.
  lemma {:induction false} StillRecovering(states: seq<State>, steps: seq<Step>, p: nat, i: nat, j: nat, pc: Pc)
    requires IsRun(states) && Steps(states, steps) && i <= j < |states| && p in states[i].pcs && states[i].pcs[p] == pc && pc.Recovering?
    requires |states| == |steps| + 1 && forall n :: i <= n < j ==> !InterruptsFor(steps[n], p)
    ensures p in states[j].pcs && (states[j].pcs[p] == pc || states[j].pcs[p].Dead?)
    decreases j
  {
    hide *;
    if i < j {
      StillRecovering(states, steps, p, i, j - 1, pc);
      var step := steps[j - 1];
      StepAt(states, steps, j - 1);
      InvAt(states, j - 1);
      if step.process == p {
        assert !InterruptsFor(steps[j - 1], p);
        OnlyInterruptMoves(states[j - 1], step);
      } else {
        StepIsFramed(states[j - 1], step.process, step.action, step.newEvent, step.listed);
        FramedMeans(states[j - 1], states[j], step.process);
      }
    }
  }

  lemma OnlyInterruptMoves(s: State, step: Step)
    requires step.process in s.pcs && Enabled(s, step.process, step.action) && !InterruptsFor(step, step.process)
    requires s.pcs[step.process].Recovering? || s.pcs[step.process].Dead?
    ensures var after := Apply(s, step.process, step.action, step.newEvent, step.listed);
            step.process in after.pcs && (after.pcs[step.process] == s.pcs[step.process] || after.pcs[step.process].Dead?)
  {
    hide Created, Acquired, Renewed, ReleasedLease, Dropped, ClosedAs, Interrupted, WithoutExpired, ExpiredJobs, JobLeasesOf;
  }

  lemma ReadsExpired(s: State, step: Step, event: nat)
    requires step.process in s.pcs && Enabled(s, step.process, step.action) && step.action.Expired?
    requires JobLease(event) in s.leases && s.leases[JobLease(event)].expires <= s.clock
    ensures var after := Apply(s, step.process, step.action, step.newEvent, step.listed);
            && step.process in after.pcs && after.pcs[step.process].Recovering?
            && JobLease(event) in after.pcs[step.process].names
  {}

  lemma InterruptsNamed(s: State, step: Step, event: nat)
    requires step.process in s.pcs && Enabled(s, step.process, step.action) && step.action.Interrupt?
    requires event in s.events && s.pcs[step.process].Recovering? && JobLease(event) in s.pcs[step.process].names
    ensures s.pcs[step.process].Recovering?
    ensures var after := Apply(s, step.process, step.action, step.newEvent, step.listed);
            && event in after.events && !after.events[event].Running?
            && (Unfinished(s.events, event) ==> after.events[event] == Failed)
  {}

  lemma InterruptNeedsRecovering(s: State, step: Step)
    requires step.process in s.pcs && Enabled(s, step.process, step.action) && step.action.Interrupt?
    ensures s.pcs[step.process].Recovering?
  {}

  // In every run: when a process reads the expired leases at a state in which a begun job's lease
  // has expired, and then comes to interrupt what it read, the job's event is finished from then
  // on, whatever any process did in between.  The lease is there to be read unless the job is one
  // of the exceptions of BegunJobsAreCovered.
  lemma RecoveryFinishes(states: seq<State>, steps: seq<Step>, p: nat, i: nat, j: nat, k: nat, event: nat)
    requires IsRun(states) && Steps(states, steps) && |states| == |steps| + 1 && i < j < k < |states|
    requires event in states[i].begun && Unfinished(states[i].events, event) && event !in states[i].dropped
    requires JobLease(event) in states[i].leases ==> states[i].leases[JobLease(event)].expires <= states[i].clock
    requires steps[i].process == p && steps[i].action == Expired && InterruptsFor(steps[j], p)
    requires forall n :: i < n < j ==> !InterruptsFor(steps[n], p)
    ensures event in states[k].events && !Unfinished(states[k].events, event)
    ensures Unfinished(states[j].events, event) ==> states[k].events[event] == Failed
  {
    hide *;
    InvAt(states, i);
    LeaseIsThere(states[i], event);
    StepAt(states, steps, i);
    ReadsExpired(states[i], steps[i], event);
    var pc := states[i + 1].pcs[p];
    StillRecovering(states, steps, p, i + 1, j, pc);
    InterruptsMeans(steps[j], p);
    StepAt(states, steps, j);
    InterruptNeedsRecovering(states[j], steps[j]);
    EventsStay(states, steps, i, j, event);
    InterruptsNamed(states[j], steps[j], event);
    FinishedForGood(states, j + 1, k, event);
    UnfinishedMeans(states[k].events, event);
  }

  // A recovery spares the living: an event whose lease was not there or had not expired when the
  // leases were read is left as it is by the interruption.
  lemma RecoverySparesOthers(states: seq<State>, steps: seq<Step>, p: nat, i: nat, j: nat, event: nat)
    requires IsRun(states) && Steps(states, steps) && |states| == |steps| + 1 && i < j < |steps|
    requires steps[i].process == p && steps[i].action == Expired && InterruptsFor(steps[j], p)
    requires forall n :: i < n < j ==> !InterruptsFor(steps[n], p)
    requires JobLease(event) in states[i].leases ==> states[i].leases[JobLease(event)].expires > states[i].clock
    requires event in states[j].events
    ensures event in states[j + 1].events && states[j + 1].events[event] == states[j].events[event]
  {
    hide *;
    StepAt(states, steps, i);
    ReadsOnlyExpired(states[i], steps[i], event);
    StillRecovering(states, steps, p, i + 1, j, states[i + 1].pcs[p]);
    InterruptsMeans(steps[j], p);
    StepAt(states, steps, j);
    InterruptNeedsRecovering(states[j], steps[j]);
    InterruptsOnlyNamed(states[j], steps[j], event);
  }

  lemma ReadsOnlyExpired(s: State, step: Step, event: nat)
    requires step.process in s.pcs && Enabled(s, step.process, step.action) && step.action.Expired?
    requires JobLease(event) in s.leases ==> s.leases[JobLease(event)].expires > s.clock
    ensures var after := Apply(s, step.process, step.action, step.newEvent, step.listed);
            && step.process in after.pcs && after.pcs[step.process].Recovering?
            && JobLease(event) !in after.pcs[step.process].names
  {}

  lemma InterruptsOnlyNamed(s: State, step: Step, event: nat)
    requires step.process in s.pcs && Enabled(s, step.process, step.action) && step.action.Interrupt?
    requires event in s.events && s.pcs[step.process].Recovering? && JobLease(event) !in s.pcs[step.process].names
    ensures var after := Apply(s, step.process, step.action, step.newEvent, step.listed);
            event in after.events && after.events[event] == s.events[event]
  {}

  // ----- who finishes an event

  // The one step that finishes an event: its own process closes it with that status, or a recovery or
  // a supervisor fails it.
  predicate Finishes(s: State, step: Step, event: nat, status: Status) {
    step.process in s.pcs && var pc := s.pcs[step.process];
    || (step.action == Close(status) && pc.Working? && pc.event == event)
    || (status == Failed && step.action.Interrupt? && pc.Recovering? && JobLease(event) in pc.names)
    || (status == Failed && step.action.SettleFail? && pc.Settling? && pc.next < |pc.listed| && pc.listed[pc.next] == event)
  }

  lemma StepFinishes(s: State, step: Step, event: nat)
    requires step.process in s.pcs && Enabled(s, step.process, step.action) && event in s.events
    requires Chosen(s, step.action, step.newEvent, step.listed)
    ensures var after := Apply(s, step.process, step.action, step.newEvent, step.listed);
            && event in after.events
            && (s.events[event].Running? && !after.events[event].Running? ==> Finishes(s, step, event, after.events[event]))
            && (forall status :: s.events[event].Running? && Finishes(s, step, event, status) ==> after.events[event] == status)
  {
    hide Created, Acquired, Renewed, ReleasedLease, Dropped, WithoutExpired, ExpiredJobs, JobLeasesOf, ListsJobs;
  }

  // In every run an event that succeeded was closed so by its own process: no recovery and no
  // supervisor makes a success of a job.
  lemma {:induction false} SuccessIsItsOwn(states: seq<State>, steps: seq<Step>, k: nat, event: nat) returns (n: nat)
    requires IsRun(states) && Steps(states, steps) && |states| == |steps| + 1 && k < |states|
    requires event in states[k].events && states[k].events[event] == Succeeded
    ensures n < k && steps[n].action == Close(Succeeded)
    ensures steps[n].process in states[n].pcs && states[n].pcs[steps[n].process] == Working(event)
    ensures steps[n].process in states[n].jobOf && states[n].jobOf[steps[n].process] == event
    decreases k
  {
    hide *;
    StartIsEmpty(states);
    n := k - 1;
    StepAt(states, steps, n);
    InvAt(states, n);
    NewIsRunning(states[n], steps[n], event);
    if event in states[n].events && states[n].events[event] == Succeeded {
      n := SuccessIsItsOwn(states, steps, n, event);
    } else {
      StepFinishes(states[n], steps[n], event);
      InvAt(states, n);
      OnlyCloseSucceeds(states[n], steps[n], event);
      WorkingOnOwn(states[n], steps[n].process);
    }
  }

  lemma StartIsEmpty(states: seq<State>)
    requires IsRun(states)
    ensures |states| > 0 && states[0].events == map[]
  {
    hide Next;
  }

  lemma NewIsRunning(s: State, step: Step, event: nat)
    requires Inv(s) && step.process in s.pcs && Enabled(s, step.process, step.action) && Chosen(s, step.action, step.newEvent, step.listed)
    ensures var after := Apply(s, step.process, step.action, step.newEvent, step.listed);
            event in after.events && !after.events[event].Running? ==>
              event in s.events && (s.events[event].Running? || after.events[event] == s.events[event])
  {
    hide Created, Acquired, Renewed, ReleasedLease, Dropped, WithoutExpired, ExpiredJobs, JobLeasesOf, ListsJobs, Inv;
  }

  lemma OnlyCloseSucceeds(s: State, step: Step, event: nat)
    requires Finishes(s, step, event, Succeeded)
    ensures step.process in s.pcs && step.action == Close(Succeeded) && s.pcs[step.process] == Working(event)
  {}

  lemma WorkingOnOwn(s: State, p: nat)
    requires Inv(s) && p in s.pcs && s.pcs[p].Working?
    ensures p in s.jobOf && s.jobOf[p] == s.pcs[p].event
  {
    assert PcOk(s, p);
    hide RowsOk, BegunOk;
  }

  lemma InterruptsMeans(step: Step, p: nat)
    requires InterruptsFor(step, p)
    ensures step.process == p && step.action.Interrupt?
  {}

  lemma UnfinishedMeans(events: map<nat, Status>, event: nat)
    ensures Unfinished(events, event) <==> event in events && events[event].Running?
  {}

  lemma LeaseIsThere(s: State, event: nat)
    requires Inv(s) && event in s.begun && Unfinished(s.events, event) && event !in s.dropped
    ensures JobLease(event) in s.leases && event in s.events
  {
    hide RowsOk, PcOk;
  }

  // ----- exclusive leases

  predicate HeldBy(s: State, name: Name, owner: nat) {
    name in s.leases && s.leases[name].owner == Some(owner) && s.leases[name].expires > s.clock
  }

  // The owner itself acts, or its supervisor cleans up after it.
  predicate OnBehalfOf(s: State, p: nat, action: Action, owner: nat) {
    || p == owner || action == SettleGood(owner)
    || (p in s.pcs && s.pcs[p].Settling? && s.pcs[p].child == owner)
    || (p in s.pcs && s.pcs[p].Freeing? && s.pcs[p].child == owner)
  }

  // While a lease has not expired, nobody but its owner and the owner's supervisor changes it: no
  // other process's acquire succeeds, and no recovery removes it.
  lemma HeldIsExclusive(s: State, p: nat, action: Action, newEvent: nat, listed: seq<nat>, name: Name, owner: nat)
    requires Inv(s) && Enabled(s, p, action) && Chosen(s, action, newEvent, listed) && p in s.pcs
    requires HeldBy(s, name, owner) && !OnBehalfOf(s, p, action, owner)
    ensures var after := Apply(s, p, action, newEvent, listed); name in after.leases && after.leases[name] == s.leases[name]
  {
    hide *;
    match GroupOf(action)
    case Recovery => HeldIsExclusiveByRecovery(s, p, action, newEvent, listed, name, owner);
    case Settlement => HeldIsExclusiveBySettlement(s, p, action, newEvent, listed, name, owner);
    case OnEvent => HeldIsExclusiveOnEvent(s, p, action, newEvent, listed, name, owner);
    case OnRunner => HeldIsExclusiveOnRunner(s, p, action, newEvent, listed, name, owner);
    case OnLease => HeldIsExclusiveOnLease(s, p, action, newEvent, listed, name, owner);
  }

  lemma HeldIsExclusiveByRecovery(s: State, p: nat, action: Action, newEvent: nat, listed: seq<nat>, name: Name, owner: nat)
    requires Inv(s) && Enabled(s, p, action) && Chosen(s, action, newEvent, listed) && p in s.pcs
    requires HeldBy(s, name, owner) && !OnBehalfOf(s, p, action, owner)
    requires GroupOf(action) == Recovery
    ensures var after := Apply(s, p, action, newEvent, listed); name in after.leases && after.leases[name] == s.leases[name]
  {
    assert PcOk(s, p);
    hide BegunOk, RowsOk, JobLeasesOf, ListsJobs, ClosedAs, ReleasedLease, Created, Acquired, MayTake, Renewed,
         Dropped;
  }

  lemma HeldIsExclusiveBySettlement(s: State, p: nat, action: Action, newEvent: nat, listed: seq<nat>, name: Name, owner: nat)
    requires Inv(s) && Enabled(s, p, action) && Chosen(s, action, newEvent, listed) && p in s.pcs
    requires HeldBy(s, name, owner) && !OnBehalfOf(s, p, action, owner)
    requires GroupOf(action) == Settlement
    ensures var after := Apply(s, p, action, newEvent, listed); name in after.leases && after.leases[name] == s.leases[name]
  {
    assert PcOk(s, p);
    hide BegunOk, RowsOk, ExpiredJobs, Interrupted, WithoutExpired, Created, Acquired, MayTake, Renewed, Dropped;
  }

  lemma HeldIsExclusiveOnEvent(s: State, p: nat, action: Action, newEvent: nat, listed: seq<nat>, name: Name, owner: nat)
    requires Inv(s) && Enabled(s, p, action) && Chosen(s, action, newEvent, listed) && p in s.pcs
    requires HeldBy(s, name, owner) && !OnBehalfOf(s, p, action, owner)
    requires GroupOf(action) == OnEvent
    ensures var after := Apply(s, p, action, newEvent, listed); name in after.leases && after.leases[name] == s.leases[name]
  {
    assert PcOk(s, p);
    hide BegunOk, RowsOk, ExpiredJobs, Interrupted, WithoutExpired, JobLeasesOf, ListsJobs, ReleasedLease, Created,
         Acquired, MayTake, Renewed, Dropped;
  }

  lemma HeldIsExclusiveOnRunner(s: State, p: nat, action: Action, newEvent: nat, listed: seq<nat>, name: Name, owner: nat)
    requires Inv(s) && Enabled(s, p, action) && Chosen(s, action, newEvent, listed) && p in s.pcs
    requires HeldBy(s, name, owner) && !OnBehalfOf(s, p, action, owner)
    requires GroupOf(action) == OnRunner
    ensures var after := Apply(s, p, action, newEvent, listed); name in after.leases && after.leases[name] == s.leases[name]
  {
    assert PcOk(s, p);
    hide BegunOk, RowsOk, ExpiredJobs, Interrupted, WithoutExpired, JobLeasesOf, ListsJobs, ClosedAs, Renewed,
         Dropped;
  }

  lemma HeldIsExclusiveOnLease(s: State, p: nat, action: Action, newEvent: nat, listed: seq<nat>, name: Name, owner: nat)
    requires Inv(s) && Enabled(s, p, action) && Chosen(s, action, newEvent, listed) && p in s.pcs
    requires HeldBy(s, name, owner) && !OnBehalfOf(s, p, action, owner)
    requires GroupOf(action) == OnLease
    ensures var after := Apply(s, p, action, newEvent, listed); name in after.leases && after.leases[name] == s.leases[name]
  {
    assert PcOk(s, p);
    hide BegunOk, RowsOk, ExpiredJobs, Interrupted, WithoutExpired, JobLeasesOf, ListsJobs, ClosedAs, ReleasedLease;
  }

  // The steps by which an owner or its supervisor gives a lease up.
  predicate GivesUp(action: Action) {
    action.ReleaseRunner? || action.DropLease? || action.SettleGood? || action.SettleDelete? || action.SettleRelease?
  }

  // What one step leaves of a lease that is held and not given up: a renewal of the owner makes it
  // last LEASE_SECONDS from now, a second taking LEASE_SECONDS from the time that was read, and every
  // other step leaves it as it was.
  lemma OwnerKeepsLease(s: State, p: nat, action: Action, newEvent: nat, listed: seq<nat>, name: Name, owner: nat)
    requires Inv(s) && Enabled(s, p, action) && Chosen(s, action, newEvent, listed) && p in s.pcs
    requires HeldBy(s, name, owner) && (OnBehalfOf(s, p, action, owner) ==> !GivesUp(action))
    ensures var after := Apply(s, p, action, newEvent, listed);
            name in after.leases && after.leases[name] == Lease(Some(owner), HeldUntil(s, p, action, name, owner, s.leases[name].expires))
  {
    hide *;
    if OnBehalfOf(s, p, action, owner) {
      OwnerSteps(s, p, action, newEvent, listed, name, owner);
    } else {
      HeldIsExclusive(s, p, action, newEvent, listed, name, owner);
      HeldMeans(s, name, owner);
      OthersHold(s, p, action, name, owner);
    }
  }

  // How long a lease is held after a step, when it was held until `before`.
  function HeldUntil(s: State, p: nat, action: Action, name: Name, owner: nat, before: nat): nat {
    if p == owner && action == Renew(name) then s.clock + LEASE_SECONDS
    else if p == owner && p in s.pcs && s.pcs[p].Taking? && action.TakeUpdate? && name.RunnerLease? then s.pcs[p].now + LEASE_SECONDS
    else before
  }

  lemma HeldMeans(s: State, name: Name, owner: nat)
    requires HeldBy(s, name, owner)
    ensures name in s.leases && s.leases[name] == Lease(Some(owner), s.leases[name].expires)
  {}

  lemma OthersHold(s: State, p: nat, action: Action, name: Name, owner: nat)
    requires name in s.leases && !OnBehalfOf(s, p, action, owner)
    ensures HeldUntil(s, p, action, name, owner, s.leases[name].expires) == s.leases[name].expires
  {}

  lemma OwnerSteps(s: State, p: nat, action: Action, newEvent: nat, listed: seq<nat>, name: Name, owner: nat)
    requires Inv(s) && Enabled(s, p, action) && Chosen(s, action, newEvent, listed) && p in s.pcs
    requires HeldBy(s, name, owner) && !GivesUp(action)
    ensures var after := Apply(s, p, action, newEvent, listed); name in after.leases && after.leases[name].owner == Some(owner)
    ensures OnBehalfOf(s, p, action, owner) ==>
      Apply(s, p, action, newEvent, listed).leases[name].expires == HeldUntil(s, p, action, name, owner, s.leases[name].expires)
  {
    assert PcOk(s, p);
    hide BegunOk, ListsJobs, Interrupted, ClosedAs, RowsOk;
  }

  // A renewal by the owner makes the lease last LEASE_SECONDS from now, and nobody else's does
  // anything.
  lemma RenewalExtends(s: State, p: nat, name: Name, newEvent: nat, listed: seq<nat>)
    requires Enabled(s, p, Renew(name))
    ensures p in s.pcs
    ensures var after := Apply(s, p, Renew(name), newEvent, listed);
            after.leases == if name in s.leases && s.leases[name].owner == Some(p) then s.leases[name := Lease(Some(p), s.clock + LEASE_SECONDS)]
                            else s.leases
  {}

  // The runner lease is taken exactly when it had expired at the time that was read, or is the
  // process's own; it then lasts LEASE_SECONDS from that time.
  lemma TakingExtends(s: State, p: nat, newEvent: nat, listed: seq<nat>)
    requires Enabled(s, p, TakeUpdate)
    ensures p in s.pcs && s.pcs[p].Taking?
    ensures var (after, now) := (Apply(s, p, TakeUpdate, newEvent, listed), s.pcs[p].now);
            && p in after.pcs && (after.pcs[p].Held? || after.pcs[p].Idle?)
            && (after.pcs[p].Held? <==>
                  RunnerLease in s.leases && (s.leases[RunnerLease].expires <= now || s.leases[RunnerLease].owner == Some(p)))
            && after.leases == if after.pcs[p].Held? then s.leases[RunnerLease := Lease(Some(p), now + LEASE_SECONDS)] else s.leases
  {}

  // A job lease of one's own event is always there to be acquired, unless the event was finished by
  // somebody else in the meantime.
  lemma AcquiringExtends(s: State, p: nat, newEvent: nat, listed: seq<nat>)
    requires Inv(s) && Enabled(s, p, AcquireUpdate)
    ensures p in s.pcs && s.pcs[p].Acquiring?
    ensures var (after, lease, now) := (Apply(s, p, AcquireUpdate, newEvent, listed), JobLease(s.pcs[p].event), s.pcs[p].now);
            && (Unfinished(s.events, s.pcs[p].event) ==> lease in s.leases)
            && after.leases == if lease in s.leases then s.leases[lease := Lease(Some(p), now + LEASE_SECONDS)] else s.leases
  {
    assert PcOk(s, p);
    hide RowsOk, BegunOk;
  }

  // Runner.take on a lease that nobody holds succeeds, and on one that another holds it does not: the
  // row it creates is free.
  lemma TakeIsExact(s: State, p: nat, newEvent: nat, listed: seq<nat>)
    requires Enabled(s, p, TakeCreate)
    ensures p in s.pcs
    ensures var created := Apply(s, p, TakeCreate, newEvent, listed);
            && p in created.pcs && Enabled(created, p, TakeUpdate)
            && var taken := Apply(created, p, TakeUpdate, newEvent, listed);
               && p in taken.pcs
               && (taken.pcs[p].Held? <==>
                     RunnerLease !in s.leases || s.leases[RunnerLease].expires <= s.clock || s.leases[RunnerLease].owner == Some(p))
               && (taken.pcs[p].Held? ==> HeldBy(taken, RunnerLease, p))
  {}

  // What giving up does: released, the runner lease is nobody's and free at once; dropped, settled or
  // recovered, the job leases are gone; and no other lease changes.
  lemma GivingUpFrees(s: State, p: nat, action: Action, newEvent: nat, listed: seq<nat>)
    requires Inv(s) && Enabled(s, p, action) && Chosen(s, action, newEvent, listed) && p in s.pcs
    ensures var after := Apply(s, p, action, newEvent, listed);
      && (action.ReleaseRunner? ==>
            && (forall name :: name in s.leases && !(name.RunnerLease? && s.leases[name].owner == Some(p)) ==>
                  name in after.leases && after.leases[name] == s.leases[name])
            && (RunnerLease in after.leases ==>
                  after.leases[RunnerLease].owner != Some(p)
                  && (RunnerLease in s.leases && s.leases[RunnerLease].owner == Some(p) ==> after.leases[RunnerLease] == Lease(None, s.clock))))
      && (action.DropLease? && s.pcs[p].Closing? ==>
            && !(JobLease(s.pcs[p].event) in after.leases && after.leases[JobLease(s.pcs[p].event)].owner == Some(p))
            && forall name :: name in s.leases && name != JobLease(s.pcs[p].event) ==> name in after.leases && after.leases[name] == s.leases[name])
      && (action.SettleGood? || (action.SettleDelete? && s.pcs[p].Settling?) ==>
            var child := if action.SettleGood? then action.child else s.pcs[p].child;
            && (forall name :: name in after.leases && name.JobLease? ==> after.leases[name].owner != Some(child))
            && forall name :: name in s.leases && (name.RunnerLease? || s.leases[name].owner != Some(child)) ==>
                 name in after.leases && after.leases[name] == s.leases[name])
      && (action.SettleRelease? && s.pcs[p].Freeing? ==>
            && (RunnerLease in after.leases ==> after.leases[RunnerLease].owner != Some(s.pcs[p].child))
            && forall name :: name in s.leases && name.JobLease? ==> name in after.leases && after.leases[name] == s.leases[name])
      && (action.Delete? && s.pcs[p].Deleting? ==>
            && (forall name :: name in s.pcs[p].names && name in after.leases ==> after.leases[name].expires > s.pcs[p].now)
            && forall name :: name in s.leases && (name !in s.pcs[p].names || s.leases[name].expires > s.pcs[p].now) ==>
                 name in after.leases && after.leases[name] == s.leases[name])
  {
    hide Inv, Chosen;
  }

  // How long a lease is held at the n-th state, told by the steps and the clock alone.
  function RunHeldUntil(states: seq<State>, steps: seq<Step>, name: Name, owner: nat, n: nat): nat
    requires n < |states| && n <= |steps| && name in states[0].leases
  {
    if n == 0 then states[0].leases[name].expires
    else HeldUntil(states[n - 1], steps[n - 1].process, steps[n - 1].action, name, owner, RunHeldUntil(states, steps, name, owner, n - 1))
  }

  // The owner renews in time: whenever the clock has come to a state, fewer than LEASE_SECONDS have
  // passed since the renewal before it or, before the first, the first expiry is still ahead.
  ghost predicate RenewsInTime(states: seq<State>, steps: seq<Step>, name: Name, owner: nat)
    requires |states| == |steps| + 1 && name in states[0].leases
  {
    forall n :: 0 <= n < |states| ==> states[n].clock < RunHeldUntil(states, steps, name, owner, n)
  }

  lemma RenewsAt(states: seq<State>, steps: seq<Step>, name: Name, owner: nat, n: nat)
    requires |states| == |steps| + 1 && name in states[0].leases && RenewsInTime(states, steps, name, owner) && n < |states|
    ensures states[n].clock < RunHeldUntil(states, steps, name, owner, n)
  {
    hide RunHeldUntil;
  }

  lemma RunHeldNext(states: seq<State>, steps: seq<Step>, name: Name, owner: nat, n: nat)
    requires n < |steps| < |states| && name in states[0].leases
    ensures RunHeldUntil(states, steps, name, owner, n + 1)
            == HeldUntil(states[n], steps[n].process, steps[n].action, name, owner, RunHeldUntil(states, steps, name, owner, n))
  {
    hide HeldUntil;
  }

  lemma RenewedStep(s: State, step: Step, name: Name, owner: nat, until: nat, after: State)
    requires Inv(s) && step.process in s.pcs && Enabled(s, step.process, step.action) && Chosen(s, step.action, step.newEvent, step.listed)
    requires after == Apply(s, step.process, step.action, step.newEvent, step.listed)
    requires HeldBy(s, name, owner) && name in s.leases && s.leases[name].expires == until
    requires OnBehalfOf(s, step.process, step.action, owner) ==> !GivesUp(step.action)
    requires after.clock < HeldUntil(s, step.process, step.action, name, owner, until)
    ensures Inv(after) && HeldBy(after, name, owner)
    ensures name in after.leases && after.leases[name].expires == HeldUntil(s, step.process, step.action, name, owner, until)
  {
    hide *;
    StepKeepsInv(s, step.process, step.action, step.newEvent, step.listed);
    OwnerKeepsLease(s, step.process, step.action, step.newEvent, step.listed, name, owner);
    HeldIntro(after, name, owner);
  }

  lemma HeldIntro(s: State, name: Name, owner: nat)
    requires name in s.leases && s.leases[name].owner == Some(owner) && s.leases[name].expires > s.clock
    ensures HeldBy(s, name, owner)
  {}

  lemma {:induction false} RenewedLeaseHolds(states: seq<State>, steps: seq<Step>, name: Name, owner: nat, k: nat)
    requires Steps(states, steps) && |states| == |steps| + 1 && k < |states| && Inv(states[0]) && HeldBy(states[0], name, owner)
    requires name in states[0].leases && RenewsInTime(states, steps, name, owner)
    requires forall n :: 0 <= n < |steps| && OnBehalfOf(states[n], steps[n].process, steps[n].action, owner) ==> !GivesUp(steps[n].action)
    ensures Inv(states[k]) && HeldBy(states[k], name, owner)
    ensures name in states[k].leases && states[k].leases[name].expires == RunHeldUntil(states, steps, name, owner, k)
    decreases k
  {
    hide *;
    if k == 0 {
      RunHeldFirst(states, steps, name, owner);
    } else {
      StepAt(states, steps, k - 1);
      RenewedLeaseHolds(states, steps, name, owner, k - 1);
      RunHeldNext(states, steps, name, owner, k - 1);
      RenewsAt(states, steps, name, owner, k);
      RenewedStep(states[k - 1], steps[k - 1], name, owner, RunHeldUntil(states, steps, name, owner, k - 1), states[k]);
    }
  }

  lemma RunHeldFirst(states: seq<State>, steps: seq<Step>, name: Name, owner: nat)
    requires |states| > 0 && name in states[0].leases
    ensures RunHeldUntil(states, steps, name, owner, 0) == states[0].leases[name].expires
  {}

  // An owner that renews in time and does not give its lease up holds it in every state, so no other
  // owner's acquire succeeds.
  lemma RenewedLeaseIsKept(states: seq<State>, steps: seq<Step>, name: Name, owner: nat, k: nat)
    requires Steps(states, steps) && |states| == |steps| + 1 && k < |states| && Inv(states[0]) && HeldBy(states[0], name, owner)
    requires name in states[0].leases && RenewsInTime(states, steps, name, owner)
    requires forall n :: 0 <= n < |steps| && OnBehalfOf(states[n], steps[n].process, steps[n].action, owner) ==> !GivesUp(steps[n].action)
    ensures HeldBy(states[k], name, owner) && name in states[k].leases
    ensures states[k].leases[name].expires == RunHeldUntil(states, steps, name, owner, k)
    ensures k < |steps| && !OnBehalfOf(states[k], steps[k].process, steps[k].action, owner) ==>
      name in states[k + 1].leases && states[k + 1].leases[name] == states[k].leases[name]
  {
    hide *;
    RenewedLeaseHolds(states, steps, name, owner, k);
    if k < |steps| && !OnBehalfOf(states[k], steps[k].process, steps[k].action, owner) {
      StepAt(states, steps, k);
      HeldIsExclusive(states[k], steps[k].process, steps[k].action, steps[k].newEvent, steps[k].listed, name, owner);
    }
  }

  // A run that shows the exception, state by state: begin, a closing update that raises, and the
  // `finally` that still drops the lease.
  function Example(n: nat): State {
    var lease := JobLease(0);
    var (free, taken) := (Lease(None, 0), Lease(Some(0), LEASE_SECONDS));
    if n == 0 then State(0, map[], map[], map[0 := Idle], map[], {}, {})
    else if n == 1 then State(0, map[], map[0 := Running], map[0 := Recorded(0)], map[0 := 0], {}, {})
    else if n == 2 then State(0, map[lease := free], map[0 := Running], map[0 := Acquiring(0, 0)], map[0 := 0], {}, {})
    else if n == 3 then State(0, map[lease := taken], map[0 := Running], map[0 := Working(0)], map[0 := 0], {0}, {})
    else if n == 4 then State(0, map[lease := taken], map[0 := Running], map[0 := Closing(0, true)], map[0 := 0], {0}, {})
    else State(0, map[], map[0 := Running], map[0 := Released(false)], map[0 := 0], {0}, {0})
  }

  lemma ExampleBegins()
    ensures Next(Example(0), Example(1)) && Next(Example(1), Example(2))
  {
    StepTaken(Example(0), Record, Example(1));
    StepTaken(Example(1), AcquireCreate, Example(2));
    hide Next;
  }

  lemma ExampleWorks()
    ensures Next(Example(2), Example(3))
  {
    StepTaken(Example(2), AcquireUpdate, Example(3));
    hide Next;
  }

  lemma ExampleRaises()
    ensures Next(Example(3), Example(4))
  {
    StepTaken(Example(3), CloseRaises, Example(4));
    hide Next;
  }

  lemma ExampleDrops()
    ensures Next(Example(4), Example(5))
  {
    assert Example(4).leases - {JobLease(0)} == map[];
    StepTaken(Example(4), DropLease, Example(5));
    hide Next;
  }

  // It ends with a begun, unfinished event and no lease for a recovery to find.
  lemma LostJobExample() returns (states: seq<State>)
    ensures IsRun(states)
    ensures var last := states[|states| - 1]; 0 in last.begun && Unfinished(last.events, 0) && JobLease(0) !in last.leases
  {
    hide Next, Example, Start, Unfinished;
    ExampleBegins();
    ExampleWorks();
    ExampleRaises();
    ExampleDrops();
    ExampleEnds();
    states := [Example(0), Example(1), Example(2), Example(3), Example(4), Example(5)];
  }

  lemma ExampleEnds()
    ensures Example(0) == Start({0})
    ensures 0 in Example(5).begun && Unfinished(Example(5).events, 0) && JobLease(0) !in Example(5).leases
  {}

  lemma StepTaken(s: State, action: Action, after: State)
    requires 0 in s.pcs && Enabled(s, 0, action) && Chosen(s, action, 0, []) && after == Apply(s, 0, action, 0, [])
    ensures Next(s, after)
  {
    hide Apply, Enabled, Chosen;
  }
}
