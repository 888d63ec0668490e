// The threads and bounded channels of dbs/engine/pipeline.py as a state machine.  A pipeline is a
// chain: thread i takes from channel i - 1 and puts into channel i.  One step is one critical
// section of a channel's condition, one access to the pipeline's flags, or one decision of a
// thread's own code.  `encoding` runs the with-block as the first thread of the chain, `decoding`
// as the last one, which stops the pipeline when it is done.
module Pipeline {
  import opened Wrappers

  datatype Item<T> = Data(value: T, size: nat) | End

  datatype Op<T> = Put(item: Item<T>) | Get

  // Where a thread is.  Parking still holds the channel's lock between the test and the wait.
  datatype Pc<T> =
    | Working | Trying(op: Op<T>) | Parking(op: Op<T>) | Parked(op: Op<T>)
    | Raised | Failing | Stopping | Halting(next: nat) | Joining | Ended

  // closed: put the end marker; drained: took it; failed: its own code raised.
  datatype Actor<T> = Actor(pc: Pc<T>, closed: bool, drained: bool, failed: bool)

  // The queue and its byte count, all that was ever put and taken, and who holds the lock.
  datatype Channel<T> = Channel(items: seq<Item<T>>, bytes: int, put: seq<Item<T>>, taken: seq<Item<T>>, lock: Option<nat>)

  datatype Exit = Running | Normal | Raises

  datatype State<T> = State(channels: seq<Channel<T>>, actors: seq<Actor<T>>, stopped: bool, failure: Option<nat>, exit: Exit)

  datatype Action<T> = Want(op: Op<T>) | Fail | Finish | Try | Park | Unwind | Record | SetStopped | WakeNext | Leave

  // A pipeline of `capacities` channels whose with-block is the first or the last thread.
  datatype Config = Config(capacities: seq<nat>, mainIsLast: bool) {
    function Last(): nat { |capacities| }

    predicate IsMain(i: nat) { i == if mainIsLast then Last() else 0 }

    function ChannelOf<T>(i: nat, op: Op<T>): int { if op.Get? then i - 1 else i }
  }

  function Size<T>(item: Item<T>): nat {
    if item.Data? then item.size else 0
  }

  function Total<T>(items: seq<Item<T>>): nat {
    if |items| == 0 then 0 else Total(items[..|items| - 1]) + Size(items[|items| - 1])
  }

  function Start<T>(config: Config): State<T> {
    State(seq(|config.capacities|, _ => Channel([], 0, [], [], None)), seq(|config.capacities| + 1, _ => Actor(Working, false, false, false)),
          false, None, Running)
  }

  // ----- the steps

  predicate Shape<T>(config: Config, s: State<T>) {
    |s.channels| == |config.capacities| && |s.actors| == |config.capacities| + 1
  }

  // Channel.put and Channel.get: the wait conditions, apart from the stop flag.  close never waits.
  predicate MustWait<T>(channel: Channel<T>, capacity: nat, op: Op<T>) {
    match op
    case Get => channel.items == []
    case Put(End) => false
    case Put(Data(_, size)) => channel.items != [] && channel.bytes + size > capacity
  }

  // What a thread's code may ask for: one input to the end, one output closed once.
  predicate MayWant<T>(config: Config, i: nat, actor: Actor<T>, op: Op<T>) {
    match op
    case Get => i > 0 && !actor.drained
    case Put(_) => i < config.Last() && !actor.closed
  }

  // Its code returns: the output is closed, and the input was read to its end unless the
  // with-block at the far end stops the pipeline.
  predicate MayFinish<T>(config: Config, i: nat, actor: Actor<T>) {
    (i < config.Last() ==> actor.closed) && (i > 0 && !config.mainIsLast ==> actor.drained)
  }

  predicate OpFits<T>(config: Config, i: nat, op: Op<T>) {
    0 <= config.ChannelOf(i, op) < |config.capacities|
  }

  predicate Enabled<T>(config: Config, s: State<T>, i: nat, action: Action<T>)
    requires Shape(config, s) && i < |s.actors|
  {
    var actor := s.actors[i];
    match action
    case Want(op) => actor.pc.Working? && MayWant(config, i, actor, op)
    case Fail => actor.pc.Working?
    case Finish => actor.pc.Working? && MayFinish(config, i, actor)
    case Try => actor.pc.Trying? && OpFits(config, i, actor.pc.op) && s.channels[config.ChannelOf(i, actor.pc.op)].lock.None?
    case Park => actor.pc.Parking? && OpFits(config, i, actor.pc.op)
    case Unwind => actor.pc.Raised?
    case Record => actor.pc.Failing?
    case SetStopped => actor.pc.Stopping?
    case WakeNext => actor.pc.Halting? && (actor.pc.next < |s.channels| ==> s.channels[actor.pc.next].lock.None?)
    case Leave => actor.pc.Joining? && s.exit == Running && (forall j :: 0 <= j < |s.actors| && j != i ==> s.actors[j].pc.Ended?)
  }

  function WithPc<T>(s: State<T>, i: nat, pc: Pc<T>): State<T>
    requires i < |s.actors|
  {
    s.(actors := s.actors[i := s.actors[i].(pc := pc)])
  }

  function WokenOne<T>(config: Config, actor: Actor<T>, j: nat, c: nat): Actor<T> {
    if actor.pc.Parked? && config.ChannelOf(j, actor.pc.op) == c then actor.(pc := Trying(actor.pc.op)) else actor
  }

  // notify_all: whoever is parked on the channel tries again.
  function Woken<T>(config: Config, actors: seq<Actor<T>>, c: nat): (woken: seq<Actor<T>>)
    ensures |woken| == |actors|
    ensures forall j :: 0 <= j < |actors| ==> woken[j] == WokenOne(config, actors[j], j, c)
  {
    seq(|actors|, j requires 0 <= j < |actors| => WokenOne(config, actors[j], j, c))
  }

  // _append and popleft under the lock.
  function Moved<T>(channel: Channel<T>, op: Op<T>): Channel<T>
    requires op.Get? ==> channel.items != []
  {
    match op
    case Put(item) => channel.(items := channel.items + [item], bytes := channel.bytes + Size(item), put := channel.put + [item])
    case Get => channel.(items := channel.items[1..], bytes := channel.bytes - Size(channel.items[0]), taken := channel.taken + [channel.items[0]])
  }

  function AfterOp<T>(actor: Actor<T>, channel: Channel<T>, op: Op<T>): Actor<T>
    requires op.Get? ==> channel.items != []
  {
    match op
    case Put(item) => actor.(pc := Working, closed := actor.closed || item.End?)
    case Get => actor.(pc := Working, drained := actor.drained || channel.items[0].End?)
  }

  // One pass through the critical section of put, close or get.
  function Tried<T>(config: Config, s: State<T>, i: nat): State<T>
    requires Shape(config, s) && i < |s.actors| && Enabled(config, s, i, Try)
  {
    var op := s.actors[i].pc.op;
    var c := config.ChannelOf(i, op);
    var channel := s.channels[c];
    if s.stopped then WithPc(s, i, Raised)
    else if MustWait(channel, config.capacities[c], op) then
      WithPc(s, i, Parking(op)).(channels := s.channels[c := channel.(lock := Some(i))])
    else
      s.(channels := s.channels[c := Moved(channel, op)],
         actors := Woken(config, s.actors[i := AfterOp(s.actors[i], channel, op)], c))
  }

  function Apply<T>(config: Config, s: State<T>, i: nat, action: Action<T>): State<T>
    requires Shape(config, s) && i < |s.actors| && Enabled(config, s, i, action)
  {
    var actor := s.actors[i];
    match action
    case Want(op) => WithPc(s, i, Trying(op))
    // The with-block's own exception only stops; a stage's is recorded first.
    case Fail => s.(actors := s.actors[i := actor.(pc := if config.IsMain(i) then Stopping else Failing, failed := true)])
    case Finish => WithPc(s, i, if !config.IsMain(i) then Ended else if config.mainIsLast then Stopping else Joining)
    case Try => Tried(config, s, i)
    case Park =>
      var c := config.ChannelOf(i, actor.pc.op);
      WithPc(s, i, Parked(actor.pc.op)).(channels := s.channels[c := s.channels[c].(lock := None)])
    // Stopped ends a stage quietly and leaves the with-block as an exception.
    case Unwind => s.(actors := s.actors[i := actor.(pc := if config.IsMain(i) then Stopping else Ended, failed := actor.failed || config.IsMain(i))])
    case Record => WithPc(s, i, Stopping).(failure := if s.failure.None? then Some(i) else s.failure)
    case SetStopped => WithPc(s, i, Halting(0)).(stopped := true)
    case WakeNext =>
      var k := actor.pc.next;
      if k < |s.channels| then
        s.(actors := Woken(config, s.actors[i := actor.(pc := Halting(k + 1))], k))
      else WithPc(s, i, if config.IsMain(i) then Joining else Ended)
    case Leave => WithPc(s, i, Ended).(exit := if actor.failed || s.failure.Some? then Raises else Normal)
  }

  ghost predicate Next<T(!new)>(config: Config, s: State<T>, after: State<T>) {
    Shape(config, s) && exists i: nat, action :: i < |s.actors| && Enabled(config, s, i, action) && after == Apply(config, s, i, action)
  }

  // What one pass through a critical section does, said on the queue itself: a put waits while the
  // queue is not empty and the item would take it above the capacity, a get while it is empty, the end
  // marker never; what was waited for is then appended, or taken from the front, and all who sleep on
  // the channel are woken.
  lemma PutOrGet<T(!new)>(config: Config, s: State<T>, i: nat)
    requires Shape(config, s) && i < |s.actors| && Enabled(config, s, i, Try)
    ensures var op := s.actors[i].pc.op;
      var c := if op.Get? then i - 1 else i;
      && 0 <= c < |s.channels|
      && var (after, channel) := (Apply(config, s, i, Try), s.channels[c]);
      var waits := if op.Get? then |channel.items| == 0
                   else op.item.Data? && |channel.items| > 0 && channel.bytes + op.item.size > config.capacities[c];
      && |after.channels| == |s.channels| && |after.actors| == |s.actors| && after.stopped == s.stopped
      && (forall k :: 0 <= k < |s.channels| && k != c ==> after.channels[k] == s.channels[k])
      && (if s.stopped then after.channels == s.channels && after.actors == s.actors[i := s.actors[i].(pc := Raised)]
          else if waits then
            after.channels[c] == channel.(lock := Some(i)) && after.actors == s.actors[i := s.actors[i].(pc := Parking(op))]
          else
            && after.actors[i].pc.Working? && after.channels[c].lock == channel.lock
            && (op.Put? ==>
                  && after.channels[c].items == channel.items + [op.item] && after.channels[c].put == channel.put + [op.item]
                  && after.channels[c].taken == channel.taken)
            && (op.Get? ==>
                  && [channel.items[0]] + after.channels[c].items == channel.items && after.channels[c].put == channel.put
                  && after.channels[c].taken == channel.taken + [channel.items[0]])
            && (forall j :: 0 <= j < |s.actors| && j != i ==>
                  after.actors[j].pc == if s.actors[j].pc.Parked? && (if s.actors[j].pc.op.Get? then j - 1 else j) == c
                                        then Trying(s.actors[j].pc.op) else s.actors[j].pc))
  {}

  // The first failure recorded is the one that stays.
  lemma FirstFailureStays<T(!new)>(config: Config, s: State<T>, i: nat, action: Action<T>)
    requires Shape(config, s) && i < |s.actors| && Enabled(config, s, i, action)
    ensures var after := Apply(config, s, i, action);
            && (s.failure.Some? ==> after.failure == s.failure)
            && (s.failure.None? && after.failure.Some? ==> action.Record? && after.failure == Some(i))
            && (action.Record? ==> after.failure.Some?)
  {
    hide Woken, Moved, MustWait;
  }

  // ----- what every step keeps

  // Put and taken are the same items in the same order, what is between is queued, and the end
  // marker only ever comes last.
  ghost predicate ChannelOk<T>(channel: Channel<T>, capacity: nat) {
    && channel.put == channel.taken + channel.items
    && channel.bytes == Total(channel.items)
    && (channel.bytes <= capacity || (channel.items != [] && channel.bytes == Size(channel.items[0])))
    && EndsLast(channel.put)
  }

  predicate EndsLast<T>(items: seq<Item<T>>) {
    forall k :: 0 <= k < |items| - 1 ==> items[k].Data?
  }

  predicate HasEnd<T>(items: seq<Item<T>>) {
    items != [] && items[|items| - 1].End?
  }

  // A stop that has yet to wake a channel.
  ghost predicate WakePending<T>(actors: seq<Actor<T>>, c: int) {
    exists j :: 0 <= j < |actors| && actors[j].pc.Halting? && actors[j].pc.next <= c
  }

  // Only the thread between its test and its wait holds a lock; whoever is about to wait or waits
  // has a reason to, or is about to be woken.
  ghost predicate WaitOk<T(!new)>(config: Config, s: State<T>, i: nat)
    requires Shape(config, s) && i < |s.actors|
  {
    var actor := s.actors[i];
    && (actor.pc.Trying? || actor.pc.Parking? || actor.pc.Parked? ==>
          MayWant(config, i, actor, actor.pc.op) && OpFits(config, i, actor.pc.op))
    && (actor.pc.Parking? || actor.pc.Parked? ==>
          var c := config.ChannelOf(i, actor.pc.op);
          && MustWait(s.channels[c], config.capacities[c], actor.pc.op)
          && (s.stopped ==> WakePending(s.actors, c)))
    && (actor.pc.Parking? ==> s.channels[config.ChannelOf(i, actor.pc.op)].lock == Some(i))
  }

  ghost predicate LockOk<T>(config: Config, s: State<T>, c: nat)
    requires Shape(config, s) && c < |s.channels|
  {
    var lock := s.channels[c].lock;
    lock.Some? ==>
      && lock.value < |s.actors| && s.actors[lock.value].pc.Parking?
      && config.ChannelOf(lock.value, s.actors[lock.value].pc.op) == c
  }

  // What being closed, drained, ended or failed says about a thread.
  predicate LifeOk<T>(config: Config, s: State<T>, i: nat)
    requires Shape(config, s) && i < |s.actors|
  {
    var actor := s.actors[i];
    && (i < config.Last() ==> (actor.closed <==> HasEnd(s.channels[i].put)))
    && (i > 0 ==> (actor.drained <==> HasEnd(s.channels[i - 1].taken)))
    && (actor.pc.Raised? || actor.pc.Halting? ==> s.stopped)
    && (actor.pc.Halting? ==> actor.pc.next <= |s.channels|)
    && (actor.pc.Failing? ==> actor.failed && !config.IsMain(i))
    && (actor.pc.Joining? ==> config.IsMain(i))
    && (actor.pc.Stopping? ==> if config.IsMain(i) then actor.failed || config.mainIsLast else s.failure.Some?)
    && (actor.failed ==> s.stopped || actor.pc.Failing? || actor.pc.Stopping?)
    && (actor.failed && !config.IsMain(i) ==> actor.pc.Failing? || s.failure.Some?)
    && (actor.pc.Joining? || actor.pc.Ended? ==>
          s.stopped || (MayFinish(config, i, actor) && !(config.mainIsLast && config.IsMain(i))))
  }

  // Who may have stopped the pipeline, and what leaving the with-block means.
  ghost predicate ExitOk<T(!new)>(config: Config, s: State<T>)
    requires Shape(config, s)
  {
    var main := if config.mainIsLast then config.Last() else 0;
    && (s.stopped ==> config.mainIsLast || s.failure.Some? || s.actors[main].failed)
    && (s.failure.Some? ==> s.failure.value < |s.actors| && s.actors[s.failure.value].failed)
    && (s.exit != Running ==> forall j :: 0 <= j < |s.actors| ==> s.actors[j].pc.Ended?)
    && (s.exit == Running ==> !s.actors[main].pc.Ended?)
    && (s.exit == Normal ==> s.failure.None? && !s.actors[main].failed)
  }

  ghost predicate Inv<T(!new)>(config: Config, s: State<T>) {
    && Shape(config, s)
    && (forall c: nat :: c < |s.channels| ==> ChannelOk(s.channels[c], config.capacities[c]) && LockOk(config, s, c))
    && (forall i: nat :: i < |s.actors| ==> WaitOk(config, s, i) && LifeOk(config, s, i))
    && ExitOk(config, s)
  }

  lemma StartIsFine<T(!new)>(config: Config)
    ensures Inv(config, Start<T>(config))
  {}

  lemma PendingKept<T>(actors: seq<Actor<T>>, after: seq<Actor<T>>, c: int)
    requires |actors| == |after|
    requires forall j :: 0 <= j < |actors| && actors[j].pc.Halting? && actors[j].pc.next <= c ==> after[j].pc.Halting? && after[j].pc.next <= c
    ensures WakePending(actors, c) ==> WakePending(after, c)
  {
    if WakePending(actors, c) {
      var j :| 0 <= j < |actors| && actors[j].pc.Halting? && actors[j].pc.next <= c;
      assert after[j].pc.Halting?;
    }
  }

  // A put or get keeps the queue in order and within its bound.
  lemma MovedIsOk<T(!new)>(channel: Channel<T>, capacity: nat, op: Op<T>)
    requires ChannelOk(channel, capacity) && !MustWait(channel, capacity, op)
    requires op.Put? ==> !HasEnd(channel.put)
    ensures ChannelOk(Moved(channel, op), capacity)
  {
    if op.Get? {
      TakenIsOk(channel, capacity);
    } else {
      AddedIsOk(channel, capacity, op.item);
    }
  }

  lemma TakenIsOk<T(!new)>(channel: Channel<T>, capacity: nat)
    requires ChannelOk(channel, capacity) && channel.items != []
    ensures ChannelOk(Moved(channel, Get), capacity)
  {
    TotalTail(channel.items);
    HeadMoves(channel.taken, channel.items);
    hide Total, EndsLast;
  }

  lemma AddedIsOk<T(!new)>(channel: Channel<T>, capacity: nat, item: Item<T>)
    requires ChannelOk(channel, capacity) && !MustWait(channel, capacity, Put(item)) && !HasEnd(channel.put)
    ensures ChannelOk(Moved(channel, Put(item)), capacity)
  {
    TailGrows(channel.taken, channel.items, item);
    TotalMore(channel.items, item);
    EndsLastMore(channel.put, item);
    hide Total, EndsLast, HasEnd;
  }

  lemma HeadMoves<A>(taken: seq<A>, items: seq<A>)
    requires items != []
    ensures (taken + [items[0]]) + items[1..] == taken + items
  {}

  lemma TailGrows<A>(taken: seq<A>, items: seq<A>, item: A)
    ensures taken + (items + [item]) == (taken + items) + [item]
  {}

  lemma TotalMore<T>(items: seq<Item<T>>, item: Item<T>)
    ensures Total(items + [item]) == Total(items) + Size(item)
  {
    assert (items + [item])[..|items|] == items;
  }

  lemma EndsLastMore<T>(items: seq<Item<T>>, item: Item<T>)
    requires EndsLast(items) && !HasEnd(items)
    ensures EndsLast(items + [item])
  {}

  lemma {:induction false} TotalTail<T>(items: seq<Item<T>>)
    requires |items| > 0
    ensures Total(items) == Size(items[0]) + Total(items[1..])
  {
    if |items| > 1 {
      TotalTail(items[..|items| - 1]);
      assert items[..|items| - 1][1..] == items[1..][..|items| - 2];
    }
  }

  // A stop that has yet to wake a channel stays until it has woken it.
  lemma PendingAfter<T(!new)>(config: Config, s: State<T>, i: nat, action: Action<T>, c: nat)
    requires Inv(config, s) && i < |s.actors| && Enabled(config, s, i, action) && c < |s.channels|
    ensures action.SetStopped? ==> WakePending(Apply(config, s, i, action).actors, c)
    ensures WakePending(s.actors, c) && !(action.WakeNext? && s.actors[i].pc.next == c) ==> WakePending(Apply(config, s, i, action).actors, c)
  {
    var after := Apply(config, s, i, action);
    if action.SetStopped? {
      assert after.actors[i].pc == Halting(0);
    } else if !(action.WakeNext? && s.actors[i].pc.next == c) {
      PendingKept(s.actors, after.actors, c);
    }
  }

  // What a step of another thread leaves of a thread and of the ends of its channels.
  ghost predicate OtherKept<T(!new)>(config: Config, s: State<T>, after: State<T>, j: nat)
    requires Shape(config, s) && Shape(config, after) && j < |s.actors|
  {
    && (after.actors[j] == s.actors[j] || (s.actors[j].pc.Parked? && after.actors[j] == s.actors[j].(pc := Trying(s.actors[j].pc.op))))
    && (j < config.Last() ==> after.channels[j].put == s.channels[j].put)
    && (j > 0 ==> after.channels[j - 1].taken == s.channels[j - 1].taken)
    && (s.stopped ==> after.stopped) && (s.failure.Some? ==> after.failure.Some?)
  }

  lemma ShapeKept<T(!new)>(config: Config, s: State<T>, i: nat, action: Action<T>)
    requires Inv(config, s) && i < |s.actors| && Enabled(config, s, i, action)
    ensures Shape(config, Apply(config, s, i, action))
  {
    hide WaitOk, LifeOk, ExitOk, ChannelOk, LockOk, MayFinish, MayWant, MustWait;
  }

  lemma OthersAreKept<T(!new)>(config: Config, s: State<T>, i: nat, action: Action<T>, j: nat)
    requires Inv(config, s) && i < |s.actors| && Enabled(config, s, i, action) && j < |s.actors| && j != i
    ensures Shape(config, Apply(config, s, i, action))
    ensures OtherKept(config, s, Apply(config, s, i, action), j)
  {
    ShapeKept(config, s, i, action);
    assert WaitOk(config, s, i);
    hide WaitOk, LifeOk, ExitOk, ChannelOk, LockOk, MayFinish, MayWant, MustWait, Tried;
    if action.Try? {
      TriedKeeps(config, s, i, j);
    }
  }

  lemma TriedKeeps<T(!new)>(config: Config, s: State<T>, i: nat, j: nat)
    requires Shape(config, s) && i < |s.actors| && Enabled(config, s, i, Try) && j < |s.actors| && j != i
    requires Shape(config, Apply(config, s, i, Try))
    ensures OtherKept(config, s, Apply(config, s, i, Try), j)
  {
    hide MustWait;
  }

  lemma OtherWaits<T(!new)>(config: Config, s: State<T>, i: nat, action: Action<T>, j: nat)
    requires Inv(config, s) && i < |s.actors| && Enabled(config, s, i, action) && j < |s.actors| && j != i
    ensures WaitOk(config, Apply(config, s, i, action), j)
  {
    assert WaitOk(config, s, j) && WaitOk(config, s, i);
    OthersAreKept(config, s, i, action, j);
    var pc := Apply(config, s, i, action).actors[j].pc;
    if pc.Parking? || pc.Parked? {
      OtherWaitsOn(config, s, i, action, j, config.ChannelOf(j, pc.op));
    }
    hide WakePending, ChannelOk, LifeOk, ExitOk, MayFinish, Apply, Enabled, LockOk, MustWait;
  }

  // A thread that goes on waiting waits on a queue that did not change, and its wake-up is still
  // to come.
  lemma OtherWaitsOn<T(!new)>(config: Config, s: State<T>, i: nat, action: Action<T>, j: nat, c: nat)
    requires Inv(config, s) && i < |s.actors| && Enabled(config, s, i, action) && j < |s.actors| && j != i
    requires Shape(config, Apply(config, s, i, action)) && c < |s.channels|
    requires var pc := Apply(config, s, i, action).actors[j].pc;
             (pc.Parking? || pc.Parked?) && c == config.ChannelOf(j, pc.op) && pc == s.actors[j].pc
    ensures var (before, after) := (s.channels[c], Apply(config, s, i, action).channels[c]);
            && after.items == before.items && after.bytes == before.bytes
            && (s.actors[j].pc.Parking? ==> after.lock == before.lock)
    ensures Apply(config, s, i, action).stopped ==> WakePending(Apply(config, s, i, action).actors, c)
  {
    assert WaitOk(config, s, j) && WaitOk(config, s, i);
    PendingAfter(config, s, i, action, c);
    hide WakePending, ChannelOk, LifeOk, ExitOk, MayFinish, LockOk;
  }

  lemma OwnWait<T(!new)>(config: Config, s: State<T>, i: nat, action: Action<T>)
    requires Inv(config, s) && i < |s.actors| && Enabled(config, s, i, action)
    ensures WaitOk(config, Apply(config, s, i, action), i)
  {
    hide *;
    if action.Try? {
      TriedWait(config, s, i);
    } else if action.Park? {
      ParkedWait(config, s, i);
    } else {
      RanWait(config, s, i, action);
    }
  }

  lemma RanWait<T(!new)>(config: Config, s: State<T>, i: nat, action: Action<T>)
    requires Inv(config, s) && i < |s.actors| && Enabled(config, s, i, action) && !action.Try? && !action.Park?
    ensures WaitOk(config, Apply(config, s, i, action), i)
  {
    ShapeKept(config, s, i, action);
    RanPc(config, s, i, action);
    hide Inv, Shape, Enabled, Apply, MayWant, OpFits, WakePending, MustWait;
  }

  // Only wanting to put or take brings a thread to a test.
  lemma RanPc<T>(config: Config, s: State<T>, i: nat, action: Action<T>)
    requires Shape(config, s) && i < |s.actors| && Enabled(config, s, i, action) && !action.Try? && !action.Park?
    ensures var after := Apply(config, s, i, action);
      && |after.actors| == |s.actors| && !after.actors[i].pc.Parking? && !after.actors[i].pc.Parked?
      && (after.actors[i].pc.Trying? ==> MayWant(config, i, after.actors[i], after.actors[i].pc.op) && OpFits(config, i, after.actors[i].pc.op))
  {
    hide Tried, MustWait;
  }

  lemma ParkedWait<T(!new)>(config: Config, s: State<T>, i: nat)
    requires Inv(config, s) && i < |s.actors| && Enabled(config, s, i, Park)
    ensures WaitOk(config, Apply(config, s, i, Park), i)
  {
    assert WaitOk(config, s, i);
    PendingAfter(config, s, i, Park, config.ChannelOf(i, s.actors[i].pc.op));
    hide WakePending, ChannelOk, LifeOk, ExitOk, MayFinish, LockOk, Tried;
  }

  lemma TriedWait<T(!new)>(config: Config, s: State<T>, i: nat)
    requires Inv(config, s) && i < |s.actors| && Enabled(config, s, i, Try)
    ensures WaitOk(config, Apply(config, s, i, Try), i)
  {
    assert WaitOk(config, s, i);
    hide WakePending, ChannelOk, LifeOk, ExitOk, MayFinish, LockOk;
  }

  lemma OtherLives<T(!new)>(config: Config, s: State<T>, i: nat, action: Action<T>, j: nat)
    requires Inv(config, s) && i < |s.actors| && Enabled(config, s, i, action) && j < |s.actors| && j != i
    ensures LifeOk(config, Apply(config, s, i, action), j)
  {
    assert LifeOk(config, s, j);
    OthersAreKept(config, s, i, action, j);
    hide Apply, Enabled, WaitOk, LockOk, ChannelOk, ExitOk;
  }

  lemma OwnLife<T(!new)>(config: Config, s: State<T>, i: nat, action: Action<T>)
    requires Inv(config, s) && i < |s.actors| && Enabled(config, s, i, action)
    ensures LifeOk(config, Apply(config, s, i, action), i)
  {
    hide *;
    if action.Try? {
      TriedLife(config, s, i);
    } else {
      OwnLifePlain(config, s, i, action);
    }
  }

  lemma OwnLifePlain<T(!new)>(config: Config, s: State<T>, i: nat, action: Action<T>)
    requires Inv(config, s) && i < |s.actors| && Enabled(config, s, i, action) && !action.Try?
    ensures LifeOk(config, Apply(config, s, i, action), i)
  {
    hide WakePending, LockOk, ExitOk, MustWait, Tried, ChannelOk, WaitOk, HasEnd, MayWant;
    assert LifeOk(config, s, i);
  }

  lemma MovedEnds<T>(channel: Channel<T>, actor: Actor<T>, op: Op<T>)
    requires op.Get? ==> |channel.items| > 0
    ensures var (moved, after) := (Moved(channel, op), AfterOp(actor, channel, op));
            && after.pc.Working? && after.failed == actor.failed
            && (op.Put? ==> moved.taken == channel.taken && after.drained == actor.drained
                            && (HasEnd(moved.put) <==> op.item.End?) && (after.closed <==> actor.closed || op.item.End?))
            && (op.Get? ==> moved.put == channel.put && after.closed == actor.closed
                            && (HasEnd(moved.taken) <==> channel.items[0].End?) && (after.drained <==> actor.drained || channel.items[0].End?))
  {}

  // The thread itself after a pass through the critical section.
  lemma TriedThread<T(!new)>(config: Config, s: State<T>, i: nat)
    requires Inv(config, s) && i < |s.actors| && Enabled(config, s, i, Try) && OpFits(config, i, s.actors[i].pc.op)
    ensures var (op, after) := (s.actors[i].pc.op, Apply(config, s, i, Try));
            var c := config.ChannelOf(i, op);
            && Shape(config, after) && after.stopped == s.stopped && after.failure == s.failure
            && if s.stopped || MustWait(s.channels[c], config.capacities[c], op) then
                 && after.actors[i] == s.actors[i].(pc := if s.stopped then Raised else Parking(op))
                 && (forall d :: 0 <= d < |s.channels| ==> after.channels[d].put == s.channels[d].put && after.channels[d].taken == s.channels[d].taken)
               else
                 && (op.Get? ==> |s.channels[c].items| > 0)
                 && after.actors[i] == AfterOp(s.actors[i], s.channels[c], op)
                 && after.channels == s.channels[c := Moved(s.channels[c], op)]
  {
    hide WakePending, LockOk, ExitOk, ChannelOk, WaitOk, LifeOk, Moved;
  }

  lemma TriedLife<T(!new)>(config: Config, s: State<T>, i: nat)
    requires Inv(config, s) && i < |s.actors| && Enabled(config, s, i, Try)
    ensures LifeOk(config, Apply(config, s, i, Try), i)
  {
    assert LifeOk(config, s, i) && WaitOk(config, s, i);
    var op := s.actors[i].pc.op;
    var c := config.ChannelOf(i, op);
    TriedThread(config, s, i);
    if !s.stopped && !MustWait(s.channels[c], config.capacities[c], op) {
      MovedEnds(s.channels[c], s.actors[i], op);
    }
    hide WakePending, LockOk, ExitOk, MustWait, ChannelOk, MayFinish, Apply, Moved, AfterOp, HasEnd, Tried;
  }

  lemma ChannelKept<T(!new)>(config: Config, s: State<T>, i: nat, action: Action<T>, c: nat)
    requires Inv(config, s) && i < |s.actors| && Enabled(config, s, i, action) && c < |s.channels|
    ensures ChannelOk(Apply(config, s, i, action).channels[c], config.capacities[c])
    ensures LockOk(config, Apply(config, s, i, action), c)
  {
    QueueKept(config, s, i, action, c);
    LockKept(config, s, i, action, c);
    hide *;
  }

  lemma QueueKept<T(!new)>(config: Config, s: State<T>, i: nat, action: Action<T>, c: nat)
    requires Inv(config, s) && i < |s.actors| && Enabled(config, s, i, action) && c < |s.channels|
    ensures |Apply(config, s, i, action).channels| == |s.channels|
    ensures ChannelOk(Apply(config, s, i, action).channels[c], config.capacities[c])
  {
    assert ChannelOk(s.channels[c], config.capacities[c]) && WaitOk(config, s, i) && LifeOk(config, s, i);
    var actor := s.actors[i];
    if action.Try? && c == config.ChannelOf(i, actor.pc.op) && !s.stopped && !MustWait(s.channels[c], config.capacities[c], actor.pc.op) {
      MovedIsOk(s.channels[c], config.capacities[c], actor.pc.op);
    }
    hide WakePending, ExitOk, MayFinish, LockOk, Moved;
  }

  lemma LockKept<T(!new)>(config: Config, s: State<T>, i: nat, action: Action<T>, c: nat)
    requires Inv(config, s) && i < |s.actors| && Enabled(config, s, i, action) && c < |s.channels|
    ensures Shape(config, Apply(config, s, i, action)) && LockOk(config, Apply(config, s, i, action), c)
  {
    ShapeKept(config, s, i, action);
    assert LockOk(config, s, c) && WaitOk(config, s, i);
    hide WakePending, ExitOk, MayFinish, ChannelOk, LifeOk, MayWant, OpFits, Tried, MustWait;
    if action.Try? {
      TriedLock(config, s, i, c);
    }
  }

  lemma TriedLock<T(!new)>(config: Config, s: State<T>, i: nat, c: nat)
    requires Shape(config, s) && i < |s.actors| && Enabled(config, s, i, Try) && c < |s.channels| && LockOk(config, s, c)
    requires Shape(config, Apply(config, s, i, Try))
    ensures LockOk(config, Apply(config, s, i, Try), c)
  {
    hide MustWait;
  }

  lemma ExitKept<T(!new)>(config: Config, s: State<T>, i: nat, action: Action<T>)
    requires Inv(config, s) && i < |s.actors| && Enabled(config, s, i, action)
    ensures ExitOk(config, Apply(config, s, i, action))
  {
    assert LifeOk(config, s, i);
    if action.Leave? {
      hide WakePending, LockOk, WaitOk, ChannelOk, Tried;
    } else {
      ThreadsKept(config, s, i, action);
      hide WakePending, LockOk, WaitOk, ChannelOk, MustWait, MayFinish, MayWant, OpFits, HasEnd, Apply;
    }
  }

  // What any step but the last keeps of every thread, and what it may do to the flags.
  ghost predicate FlagsKept<T>(config: Config, s: State<T>, i: nat, action: Action<T>, after: State<T>)
    requires Shape(config, s)
  {
    && Shape(config, after) && after.exit == s.exit
    && (forall j :: 0 <= j < |s.actors| && s.actors[j].failed ==> after.actors[j].failed)
    && (forall j: nat :: j < |s.actors| && after.actors[j].pc.Ended? ==> s.actors[j].pc.Ended? || !config.IsMain(j))
    && (after.stopped != s.stopped ==> action.SetStopped?)
    && (after.failure != s.failure ==> action.Record? && s.failure.None? && after.failure == Some(i))
  }

  lemma ThreadsKept<T(!new)>(config: Config, s: State<T>, i: nat, action: Action<T>)
    requires Inv(config, s) && i < |s.actors| && Enabled(config, s, i, action) && !action.Leave?
    ensures !s.actors[i].pc.Ended? && FlagsKept(config, s, i, action, Apply(config, s, i, action))
  {
    hide *;
    if action.Try? {
      TriedFlags(config, s, i);
    } else {
      ThreadsKeptPlain(config, s, i, action);
    }
  }

  lemma TriedFlags<T(!new)>(config: Config, s: State<T>, i: nat)
    requires Inv(config, s) && i < |s.actors| && Enabled(config, s, i, Try)
    ensures !s.actors[i].pc.Ended? && FlagsKept(config, s, i, Try, Apply(config, s, i, Try))
  {
    hide WakePending, LockOk, WaitOk, ChannelOk, MustWait, HasEnd, Moved, ExitOk, LifeOk, MayFinish;
  }

  lemma ThreadsKeptPlain<T(!new)>(config: Config, s: State<T>, i: nat, action: Action<T>)
    requires Inv(config, s) && i < |s.actors| && Enabled(config, s, i, action) && !action.Try? && !action.Leave?
    ensures !s.actors[i].pc.Ended? && FlagsKept(config, s, i, action, Apply(config, s, i, action))
  {
    hide WakePending, LockOk, WaitOk, ChannelOk, MustWait, HasEnd, Tried, ExitOk, MayFinish, MayWant;
    assert LifeOk(config, s, i);
  }

  lemma StepKeepsInv<T(!new)>(config: Config, s: State<T>, i: nat, action: Action<T>)
    requires Inv(config, s) && i < |s.actors| && Enabled(config, s, i, action)
    ensures Inv(config, Apply(config, s, i, action))
  {
    hide WaitOk, LifeOk, ChannelOk, LockOk, ExitOk, Enabled, Apply;
    var after := Apply(config, s, i, action);
    ShapeKept(config, s, i, action);
    forall c: nat | c < |s.channels| ensures ChannelOk(after.channels[c], config.capacities[c]) && LockOk(config, after, c) {
      ChannelKept(config, s, i, action, c);
    }
    forall j: nat | j < |s.actors| ensures WaitOk(config, after, j) && LifeOk(config, after, j) {
      if j == i {
        OwnWait(config, s, i, action);
        OwnLife(config, s, i, action);
      } else {
        OtherWaits(config, s, i, action, j);
        OtherLives(config, s, i, action, j);
      }
    }
    ExitKept(config, s, i, action);
  }

  // ----- whole runs

  ghost predicate IsRun<T(!new)>(config: Config, states: seq<State<T>>) {
    && |states| > 0 && states[0] == Start(config)
    && forall n :: 0 <= n < |states| - 1 ==> Next(config, states[n], states[n + 1])
  }

  lemma {:induction false} RunKeepsInv<T(!new)>(config: Config, states: seq<State<T>>)
    requires IsRun(config, states)
    ensures |states| > 0 && Inv(config, states[|states| - 1])
  {
    hide Inv, Apply, Enabled, Start;
    if |states| == 1 {
      StartIsFine<T>(config);
    } else {
      var n := |states| - 2;
      RunKeepsInv(config, states[..n + 1]);
      assert Next(config, states[n], states[n + 1]);
      var i: nat, action :| i < |states[n].actors| && Enabled(config, states[n], i, action)
                            && states[n + 1] == Apply(config, states[n], i, action);
      StepKeepsInv(config, states[n], i, action);
    }
  }

  // In every run what was taken from a channel is a prefix of what was put, and its queued bytes
  // never exceed the larger of its capacity and the one item at its head.
  lemma ChannelsConserve<T(!new)>(config: Config, states: seq<State<T>>, c: nat)
    requires IsRun(config, states) && c < |config.capacities|
    ensures var last := states[|states| - 1];
            && |last.channels| == |config.capacities|
            && var channel := last.channels[c];
               && channel.taken <= channel.put && channel.bytes == Total(channel.items)
               && channel.bytes <= (if |channel.items| > 0 && Size(channel.items[0]) > config.capacities[c] then Size(channel.items[0])
                                    else config.capacities[c])
  {
    hide IsRun, LockOk, WaitOk, LifeOk, ExitOk;
    RunKeepsInv(config, states);
    assert ChannelOk(states[|states| - 1].channels[c], config.capacities[c]);
  }

  // Once no stop is under way any more, a stopped pipeline has no sleeping thread.
  lemma NoLostWakeup<T(!new)>(config: Config, states: seq<State<T>>)
    requires IsRun(config, states)
    ensures var last := states[|states| - 1];
            last.stopped && (forall j :: 0 <= j < |last.actors| ==> !last.actors[j].pc.Halting?) ==>
              forall i :: 0 <= i < |last.actors| ==> !last.actors[i].pc.Parked? && !last.actors[i].pc.Parking?
  {
    hide IsRun, LockOk, LifeOk, ExitOk, ChannelOk;
    RunKeepsInv(config, states);
    var last := states[|states| - 1];
    forall i | 0 <= i < |last.actors| && last.stopped && (last.actors[i].pc.Parked? || last.actors[i].pc.Parking?)
      ensures exists j :: 0 <= j < |last.actors| && last.actors[j].pc.Halting?
    {
      assert WaitOk(config, last, i);
      assert WakePending(last.actors, config.ChannelOf(i, last.actors[i].pc.op));
    }
  }

  // ----- some thread can always step

  ghost predicate Quiet<T>(s: State<T>) {
    && !s.stopped && s.exit == Running
    && forall j :: 0 <= j < |s.actors| ==> s.actors[j].pc.Parked? || s.actors[j].pc.Ended? || s.actors[j].pc.Joining?
  }

  // A thread waiting for input waits for the thread before it, which is waiting for input too.
  lemma {:induction false} NobodyWaitsForInput<T(!new)>(config: Config, s: State<T>, i: nat)
    requires Inv(config, s) && Quiet(s) && i < |s.actors| && s.actors[i].pc == Parked(Get)
    ensures false
    decreases i
  {
    assert WaitOk(config, s, i) && LifeOk(config, s, i);
    assert WaitOk(config, s, i - 1) && LifeOk(config, s, i - 1) && ChannelOk(s.channels[i - 1], config.capacities[i - 1]);
    hide Inv, ExitOk, LockOk;
    if s.actors[i - 1].pc == Parked(Get) {
      NobodyWaitsForInput(config, s, i - 1);
    }
  }

  // A thread waiting for room waits for the thread after it, up to one that waits for input or to
  // the with-block that will stop the pipeline.
  lemma {:induction false} NobodyWaitsForRoom<T(!new)>(config: Config, s: State<T>, i: nat)
    requires Inv(config, s) && Quiet(s) && i < |s.actors| && s.actors[i].pc.Parked? && s.actors[i].pc.op.Put?
    ensures false
    decreases |s.actors| - i
  {
    assert WaitOk(config, s, i) && LifeOk(config, s, i);
    assert WaitOk(config, s, i + 1) && LifeOk(config, s, i + 1) && ChannelOk(s.channels[i], config.capacities[i]);
    assert WaitOk(config, s, config.Last()) && LifeOk(config, s, config.Last());
    if s.actors[i + 1].pc.Parked? && s.actors[i + 1].pc.op.Put? {
      NobodyWaitsForRoom(config, s, i + 1);
    } else if config.mainIsLast {
      NobodyWaitsForInput(config, s, config.Last());
    } else {
      EndIsBehind(s.channels[i]);
    }
  }

  lemma EndIsBehind<T(!new)>(channel: Channel<T>)
    requires EndsLast(channel.put) && channel.put == channel.taken + channel.items && |channel.items| > 0
    ensures !HasEnd(channel.taken)
  {
    if |channel.taken| > 0 {
      assert channel.put[|channel.taken| - 1] == channel.taken[|channel.taken| - 1];
    }
  }

  // In every reachable state that has not left the with-block some thread can take a step that is
  // not a failure of its own code.
  lemma SomeThreadSteps<T(!new)>(config: Config, s: State<T>) returns (i: nat, action: Action<T>)
    requires Inv(config, s) && s.exit == Running
    ensures i < |s.actors| && Enabled(config, s, i, action) && !action.Fail?
  {
    if j: nat :| j < |s.actors| && (s.actors[j].pc.Working? || s.actors[j].pc.Parking? || s.actors[j].pc.Raised?
                                    || s.actors[j].pc.Failing? || s.actors[j].pc.Stopping?) {
      i := j;
      action := OwnStep(config, s, j);
    } else if j: nat :| j < |s.actors| && (s.actors[j].pc.Trying? || s.actors[j].pc.Halting?) {
      i := j;
      action := UnlockedStep(config, s, j);
    } else if j: nat :| j < |s.actors| && s.actors[j].pc.Parked? {
      i, action := 0, Try;
      ParkedIsImpossible(config, s, j);
    } else {
      i, action := if config.mainIsLast then config.Last() else 0, Leave;
      LastToLeave(config, s, i);
    }
  }

  lemma LastToLeave<T(!new)>(config: Config, s: State<T>, i: nat)
    requires Inv(config, s) && s.exit == Running && i == (if config.mainIsLast then config.Last() else 0)
    requires forall k: nat :: k < |s.actors| ==> s.actors[k].pc.Ended? || s.actors[k].pc.Joining?
    ensures i < |s.actors| && Enabled(config, s, i, Leave)
  {
    assert s.actors[i].pc.Joining?;
    forall k: nat | k < |s.actors| && k != i ensures s.actors[k].pc.Ended? {
      assert LifeOk(config, s, k);
    }
  }

  lemma ParkedIsImpossible<T(!new)>(config: Config, s: State<T>, j: nat)
    requires Inv(config, s) && s.exit == Running && j < |s.actors| && s.actors[j].pc.Parked?
    requires forall k :: 0 <= k < |s.actors| ==> s.actors[k].pc.Parked? || s.actors[k].pc.Ended? || s.actors[k].pc.Joining?
    ensures false
  {
    assert WaitOk(config, s, j);
    if s.actors[j].pc.op.Get? {
      NobodyWaitsForInput(config, s, j);
    } else {
      NobodyWaitsForRoom(config, s, j);
    }
  }

  // A thread between two channel operations can go on.
  lemma OwnStep<T(!new)>(config: Config, s: State<T>, j: nat) returns (action: Action<T>)
    requires Inv(config, s) && j < |s.actors|
    requires var pc := s.actors[j].pc; pc.Working? || pc.Parking? || pc.Raised? || pc.Failing? || pc.Stopping?
    ensures Enabled(config, s, j, action) && !action.Fail?
  {
    assert WaitOk(config, s, j);
    hide ExitOk, LifeOk, LockOk, ChannelOk;
    var actor := s.actors[j];
    match actor.pc
    case Working =>
      action := if MayFinish(config, j, actor) then Finish else if j < config.Last() && !actor.closed then Want(Put(End)) else Want(Get);
    case Parking(_) => action := Park;
    case Raised => action := Unwind;
    case Failing => action := Record;
    case Stopping => action := SetStopped;
  }

  // When nobody is between a test and a wait, every lock is free.
  lemma UnlockedStep<T(!new)>(config: Config, s: State<T>, j: nat) returns (action: Action<T>)
    requires Inv(config, s) && j < |s.actors| && (s.actors[j].pc.Trying? || s.actors[j].pc.Halting?)
    requires forall k :: 0 <= k < |s.actors| ==> !s.actors[k].pc.Parking?
    ensures Enabled(config, s, j, action) && !action.Fail?
  {
    assert WaitOk(config, s, j);
    assert forall c: nat :: c < |s.channels| ==> LockOk(config, s, c);
    hide ExitOk, LifeOk, ChannelOk, WakePending;
    action := if s.actors[j].pc.Trying? then Try else WakeNext;
  }

  lemma SomeThreadCanStep<T(!new)>(config: Config, states: seq<State<T>>)
    requires IsRun(config, states) && states[|states| - 1].exit == Running
    ensures var last := states[|states| - 1];
            Shape(config, last) && exists i: nat, action :: i < |last.actors| && Enabled(config, last, i, action) && !action.Fail?
  {
    hide IsRun, Enabled;
    RunKeepsInv(config, states);
    var i, action := SomeThreadSteps(config, states[|states| - 1]);
  }

  // ----- leaving the with-block

  // It never ends normally when any stage, or its own body, raised.
  lemma FailureIsRaised<T(!new)>(config: Config, states: seq<State<T>>, i: nat)
    requires IsRun(config, states) && i < |states[|states| - 1].actors|
    requires var last := states[|states| - 1]; last.exit != Running && last.actors[i].failed
    ensures states[|states| - 1].exit == Raises
  {
    hide IsRun, LockOk, WaitOk, ChannelOk;
    RunKeepsInv(config, states);
    assert LifeOk(config, states[|states| - 1], i);
  }

  // When a backup's with-block ends normally, every channel was closed, and all that was put into
  // it was taken.
  lemma NormalEndMeansAllTaken<T(!new)>(config: Config, states: seq<State<T>>, c: nat)
    requires IsRun(config, states) && !config.mainIsLast && c < |config.capacities|
    requires states[|states| - 1].exit == Normal
    ensures var last := states[|states| - 1];
            |last.channels| == |config.capacities| && last.channels[c].taken == last.channels[c].put && HasEnd(last.channels[c].put)
  {
    hide IsRun, LockOk, WaitOk;
    RunKeepsInv(config, states);
    var last := states[|states| - 1];
    assert LifeOk(config, last, c) && LifeOk(config, last, c + 1) && ChannelOk(last.channels[c], config.capacities[c]);
    if |last.channels[c].items| > 0 {
      EndIsBehind(last.channels[c]);
    }
    assert last.channels[c].taken + [] == last.channels[c].taken;
  }
}
