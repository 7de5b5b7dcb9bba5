/**
 * One direction of a link: any number of senders and forwarders push packets into an interface's
 * write queue, the one `interface_writer` coroutine pops them and writes their frames onto the
 * socket (libavproto/src/avkernel.cpp, libavproto/src/avjackif.cpp), and the peer's reader cuts the
 * bytes that have arrived back into packets. Every step may be taken at any time.
 */
module Link {
  import opened Std
  import opened Cipher
  import opened Framing
  import Q = CoroQueue

  /** Where `interface_writer` stands: in front of its pop, waiting in it, writing, or returned. */
  datatype Writer = Looping | Parked(id: nat) | Writing(m: Message, rest: Bytes) | Exited

  /**
   * `sent` is what the socket has accepted, `arrived` how much of that the peer has received.
   * A broken socket accepts nothing more; the writer is not told. `taken` and `called` are history:
   * the packets the writer has been given, and those whose completion it has called, in order.
   */
  datatype State = State(
    queue: Q.State<Message>, writer: Writer, quitting: bool, broken: bool,
    sent: Bytes, arrived: nat, taken: seq<Message>, called: seq<Message>)

  function Initial(): State {
    State(Q.Initial(), Looping, false, false, [], 0, [], [])
  }

  datatype Step =
    | Enqueue(m: Message)  // async_interface_write_packet, by whoever
    | Loop                 // the writer tests `quitting` and pops
    | Complete             // the io_service runs the oldest posted completion
    | Write(n: nat)        // the socket accepts n more bytes of the frame, or the write is over
    | Break                // the socket fails
    | Quit                 // interface_runner ends: quitting is set, the queue is cancelled
    | Arrive(n: nat)       // n more bytes reach the peer

  function Take(s: State, step: Step): State {
    match step
    case Enqueue(m) => s.(queue := Q.Push(s.queue, m))
    case Loop =>
      if !s.writer.Looping? then s
      else if s.quitting then s.(writer := Exited)
      else s.(queue := Q.Pop(s.queue), writer := Parked(s.queue.next))
    case Complete =>
      if s.queue.ran >= |s.queue.posted| then s
      else
        var s' := s.(queue := Q.RunNext(s.queue));
        match s.queue.posted[s.queue.ran] {
          case Value(_, m) => s'.(writer := Writing(m, Frame(m)), taken := s.taken + [m])
          case Canceled(_) => s'.(writer := Exited)
          case _ => s'
        }
    case Write(n) =>
      if !s.writer.Writing? then s
      else if s.broken || s.writer.rest == [] then s.(writer := Looping, called := s.called + [s.writer.m])
      else if n > |s.writer.rest| then s
      else s.(sent := s.sent + s.writer.rest[..n], writer := Writing(s.writer.m, s.writer.rest[n..]))
    case Break => s.(broken := true)
    case Quit => s.(quitting := true, queue := Q.Cancel(s.queue))
    case Arrive(n) => if s.arrived + n <= |s.sent| then s.(arrived := s.arrived + n) else s
  }

  function Run(s: State, steps: seq<Step>): State
    decreases |steps|
  {
    if steps == [] then s else Run(Take(s, steps[0]), steps[1..])
  }

  /** What the peer has read so far. */
  function Received(s: State, known: Message -> bool): seq<Message>
    requires s.arrived <= |s.sent|
  {
    Split(s.sent[..s.arrived], known).messages
  }

  // ----- Invariant -----

  function Unwritten(w: Writer): Bytes {
    if w.Writing? then w.rest else []
  }

  /** The writer is inside its pop exactly while one pop is parked or about to be completed. */
  ghost predicate OnePop(s: State) {
    s.queue.ran <= |s.queue.posted|
    && Q.Settled(s.queue.posted[s.queue.ran..]) + s.queue.handlers == if s.writer.Parked? then [s.writer.id] else []
  }

  ghost predicate QueueOk(s: State) {
    Q.Inv(s.queue) && s.queue.armed == {} && s.queue.due == {} && s.queue.flagged == {} && s.queue.waits == []
  }

  /** The bytes on the wire are the frames of the packets the writer was given, in order. */
  ghost predicate WireOk(s: State) {
    && s.queue.ran <= |s.queue.posted|
    && s.taken == Q.Handed(s.queue.posted[..s.queue.ran])
    && (if s.broken then s.sent <= FrameAll(s.taken) else s.sent + Unwritten(s.writer) == FrameAll(s.taken))
    && s.arrived <= |s.sent|
  }

  /** Every packet given to the writer has had its completion called, save the one being written. */
  ghost predicate CallsOk(s: State) {
    s.taken == s.called + if s.writer.Writing? then [s.writer.m] else []
  }

  ghost predicate Inv(s: State) {
    QueueOk(s) && OnePop(s) && WireOk(s) && CallsOk(s)
  }

  lemma {:induction false} FrameAllAppend(ms: seq<Message>, ns: seq<Message>)
    ensures FrameAll(ms + ns) == FrameAll(ms) + FrameAll(ns)
    decreases |ms|
  {
    if ms == [] {
      assert ms + ns == ns;
    } else {
      assert (ms + ns)[1..] == ms[1..] + ns;
      FrameAllAppend(ms[1..], ns);
    }
  }

  lemma FrameAllOne(ms: seq<Message>, m: Message)
    ensures FrameAll(ms + [m]) == FrameAll(ms) + Frame(m)
  {
    FrameAllAppend(ms, [m]);
    assert [m][1..] == [];
  }

  /** One more completion is posted behind those that have run or are about to. */
  lemma PostedOne(s: State, p: Q.Post<Message>)
    requires s.queue.ran <= |s.queue.posted|
    ensures var left, left' := s.queue.posted[s.queue.ran..], (s.queue.posted + [p])[s.queue.ran..];
            Q.Settled(left') == if p.Value? || p.Canceled? then Q.Settled(left) + [p.id] else Q.Settled(left)
    ensures (s.queue.posted + [p])[..s.queue.ran] == s.queue.posted[..s.queue.ran]
  {
    AppendSlices(s.queue.posted, p, s.queue.ran);
    Q.PostOne(s.queue.posted[s.queue.ran..], p);
  }

  /** The same completions have run. */
  predicate SameRan(q: Q.State<Message>, q': Q.State<Message>) {
    q.ran <= |q.posted| && q'.ran == q.ran <= |q'.posted| && q'.posted[..q.ran] == q.posted[..q.ran]
  }

  /** A step of the queue that runs no completion leaves the wire alone. */
  lemma SameWire(s: State, s': State)
    requires WireOk(s)
    requires SameRan(s.queue, s'.queue)
    requires s'.taken == s.taken && s'.sent == s.sent && s'.arrived == s.arrived && s'.broken == s.broken
    requires Unwritten(s'.writer) == Unwritten(s.writer)
    ensures WireOk(s')
  {
  }

  lemma EnqueueOnePop(s: State, m: Message)
    requires OnePop(s) && s.queue.waits == [] && s.queue.flagged == {}
    ensures OnePop(Take(s, Enqueue(m)))
    ensures SameRan(s.queue, Take(s, Enqueue(m)).queue)
  {
    NoWaits(s.queue);
    if s.queue.handlers != [] {
      PostedOne(s, Q.Value(s.queue.handlers[0], m));
      assert s.queue.handlers[1..] == [];
    }
  }

  lemma EnqueueInQueue(s: State, m: Message)
    requires QueueOk(s)
    ensures QueueOk(Take(s, Enqueue(m)))
  {
    Q.PushKeeps(s.queue, m);
    Q.PushOutcome(s.queue, m);
  }

  lemma EnqueueKeeps(s: State, m: Message)
    requires Inv(s)
    ensures Inv(Take(s, Enqueue(m)))
  {
    EnqueueOnePop(s, m);
    EnqueueInQueue(s, m);
    SameWire(s, Take(s, Enqueue(m)));
  }

  lemma NoWaits(q: Q.State<Message>)
    requires q.waits == []
    ensures Q.WakeAll(q) == q
  {
    assert Map(h => Q.Post<Message>.Ready(h), q.waits) == [];
    assert q.posted + [] == q.posted;
  }

  lemma LoopOnePop(s: State)
    requires OnePop(s) && (s.queue.list != [] ==> s.queue.handlers == [])
    ensures OnePop(Take(s, Loop))
    ensures SameRan(s.queue, Take(s, Loop).queue)
  {
    if s.queue.list != [] {
      PostedOne(s, Q.Value(s.queue.next, s.queue.list[0]));
    }
  }

  lemma LoopInQueue(s: State)
    requires QueueOk(s)
    ensures QueueOk(Take(s, Loop))
  {
    Q.PopKeeps(s.queue);
  }

  lemma LoopKeeps(s: State)
    requires Inv(s)
    ensures Inv(Take(s, Loop))
  {
    LoopOnePop(s);
    LoopInQueue(s);
    SameWire(s, Take(s, Loop));
  }

  /** Only the writer's own pop can complete, so it never takes a packet while writing another. */
  lemma CompletePops(s: State)
    requires OnePop(s) && s.queue.ran < |s.queue.posted|
    ensures OnePop(Take(s, Complete))
    ensures s.queue.posted[s.queue.ran].Value? || s.queue.posted[s.queue.ran].Canceled? ==> s.writer.Parked?
  {
    var left := s.queue.posted[s.queue.ran..];
    var rest := Q.Settled(left[1..]);
    assert left[1..] == s.queue.posted[s.queue.ran + 1..];
    if left[0].Value? || left[0].Canceled? {
      assert [left[0].id] + (rest + s.queue.handlers) == Q.Settled(left) + s.queue.handlers;
      assert rest + s.queue.handlers == [];
    }
  }

  lemma CompleteOnWire(s: State)
    requires WireOk(s) && s.queue.ran < |s.queue.posted|
    requires s.queue.posted[s.queue.ran].Value? || s.queue.posted[s.queue.ran].Canceled? ==> s.writer.Parked?
    ensures WireOk(Take(s, Complete))
  {
    var q := s.queue;
    var p, done := q.posted[q.ran], q.posted[..q.ran];
    assert q.posted[..q.ran + 1] == done + [p];
    Q.PostOne(done, p);
    if p.Value? {
      FrameAllOne(s.taken, p.value);
      assert s.sent + [] == s.sent;
    }
  }

  lemma SameQueue(s: State)
    ensures Take(s, Complete).queue == Q.RunNext(s.queue)
    ensures Q.RunNext(s.queue).armed <= s.queue.armed && Q.RunNext(s.queue).due == s.queue.due
  {
  }

  lemma CompleteInQueue(s: State)
    requires QueueOk(s)
    ensures QueueOk(Take(s, Complete))
  {
    Q.RunNextKeeps(s.queue);
    SameQueue(s);
  }

  /** The last packet's completion has been called by then: a taken packet finds no write under way. */
  lemma CompleteCalls(s: State)
    requires CallsOk(s) && s.queue.ran < |s.queue.posted|
    requires s.queue.posted[s.queue.ran].Value? || s.queue.posted[s.queue.ran].Canceled? ==> s.writer.Parked?
    ensures CallsOk(Take(s, Complete))
  {
  }

  lemma CompleteKeeps(s: State)
    requires Inv(s)
    ensures Inv(Take(s, Complete))
  {
    CompleteInQueue(s);
    if s.queue.ran < |s.queue.posted| {
      CompletePops(s);
      CompleteCalls(s);
      CompleteOnWire(s);
    }
  }

  lemma WriteOnWire(s: State, n: nat)
    requires WireOk(s)
    ensures WireOk(Take(s, Write(n)))
  {
    if s.writer.Writing? && !s.broken && n <= |s.writer.rest| {
      assert s.writer.rest == s.writer.rest[..n] + s.writer.rest[n..];
      assert s.sent + s.writer.rest == s.sent + s.writer.rest[..n] + s.writer.rest[n..];
    }
  }

  lemma WriteKeeps(s: State, n: nat)
    requires Inv(s)
    ensures Inv(Take(s, Write(n)))
  {
    WriteOnWire(s, n);
    assert Take(s, Write(n)).queue == s.queue;
  }

  /** Cancelling turns the writer's parked pop into one that is about to be completed. */
  lemma QuitPosts(q: Q.State<Message>)
    requires q.waits == [] && |q.handlers| <= 1 && q.flagged == {}
    ensures Q.Cancel(q) ==
            if q.handlers == [] then q else q.(handlers := [], posted := q.posted + [Q.Canceled(q.handlers[0])])
  {
    assert Map(h => Q.Post<Message>.WaitCanceled(h), q.waits) == [];
    assert q.posted + [] == q.posted;
    if q.handlers != [] {
      var h := q.handlers[0];
      var q' := q.(handlers := [], posted := q.posted + [Q.Canceled(h)]);
      assert q.handlers[1..] == [];
      assert Q.Drain(q') == q';
    }
  }

  lemma QuitOnePop(s: State)
    requires OnePop(s) && s.queue.waits == [] && s.queue.flagged == {}
    ensures OnePop(Take(s, Quit))
    ensures SameRan(s.queue, Take(s, Quit).queue)
  {
    QuitPosts(s.queue);
    if s.queue.handlers != [] {
      PostedOne(s, Q.Canceled(s.queue.handlers[0]));
    }
  }

  lemma QuitFields(q: Q.State<Message>)
    requires q.waits == [] && |q.handlers| <= 1 && q.flagged == {}
    ensures var q' := Q.Cancel(q);
            q'.armed == q.armed && q'.due == q.due && q'.flagged == q.flagged && q'.waits == q.waits
  {
    QuitPosts(q);
  }

  lemma QuitInQueue(s: State)
    requires QueueOk(s) && |s.queue.handlers| <= 1
    ensures QueueOk(Take(s, Quit))
  {
    QuitFields(s.queue);
    Q.CancelKeeps(s.queue);
  }

  lemma QuitKeeps(s: State)
    requires Inv(s)
    ensures Inv(Take(s, Quit))
  {
    QuitOnePop(s);
    QuitInQueue(s);
    SameWire(s, Take(s, Quit));
  }

  lemma TakeKeeps(s: State, step: Step)
    requires Inv(s)
    ensures Inv(Take(s, step))
  {
    match step {
      case Enqueue(m) => EnqueueKeeps(s, m);
      case Loop => LoopKeeps(s);
      case Complete => CompleteKeeps(s);
      case Write(n) => WriteKeeps(s, n);
      case Break =>
      case Quit => QuitKeeps(s);
      case Arrive(n) =>
    }
  }

  /** The packets ever pushed to the queue in a run, in order. */
  function Pushed(steps: seq<Step>): seq<Message>
    decreases |steps|
  {
    if steps == [] then []
    else if steps[0].Enqueue? then [steps[0].m] + Pushed(steps[1..])
    else Pushed(steps[1..])
  }

  lemma {:induction false} RunKeeps(s: State, steps: seq<Step>)
    requires Inv(s)
    ensures Inv(Run(s, steps))
    decreases |steps|
  {
    if steps != [] {
      TakeKeeps(s, steps[0]);
      RunKeeps(Take(s, steps[0]), steps[1..]);
    }
  }

  lemma {:induction false} RunPushes(s: State, steps: seq<Step>)
    ensures Run(s, steps).queue.pushed == s.queue.pushed + Pushed(steps)
    decreases |steps|
  {
    if steps != [] {
      PushedByStep(s, steps[0]);
      RunPushes(Take(s, steps[0]), steps[1..]);
    }
  }

  lemma PushedByStep(s: State, step: Step)
    ensures Take(s, step).queue.pushed ==
            if step.Enqueue? then s.queue.pushed + [step.m] else s.queue.pushed
  {
    if step.Quit? {
      Q.DrainEmpties(s.queue);
      var ended := Map(h => Q.Post<Message>.WaitCanceled(h), s.queue.waits);
      Q.DrainEmpties(s.queue.(posted := s.queue.posted + ended, waits := []));
    }
  }

  /**
   * The writer has nothing to do: it is not in the middle of a frame, and no value is stored or posted to
   * it. As a rule it is then parked in its pop; one that has yet to pop again has no completion to wait for.
   */
  predicate Idle(s: State) {
    !s.writer.Writing? && s.queue.list == [] && (s.writer.Looping? || s.queue.ran == |s.queue.posted|)
  }

  /** Nothing is on the way: the writer is idle, the socket held, and all bytes have arrived. */
  predicate Drained(s: State) {
    Idle(s) && !s.broken && s.arrived == |s.sent|
  }

  lemma PostedSplits(q: Q.State<Message>)
    requires q.ran <= |q.posted|
    ensures Q.Handed(q.posted) == Q.Handed(q.posted[..q.ran]) + Q.Handed(q.posted[q.ran..])
  {
    assert q.posted == q.posted[..q.ran] + q.posted[q.ran..];
    Q.HandedAppend(q.posted[..q.ran], q.posted[q.ran..]);
  }

  lemma Associate(a: seq<Message>, b: seq<Message>, c: seq<Message>)
    ensures a + b + c == a + (b + c)
  {
  }

  lemma IdleHandsNothing(s: State)
    requires OnePop(s) && Idle(s)
    ensures Q.Handed(s.queue.posted[s.queue.ran..]) + s.queue.list == []
  {
    NothingSettledNothingHanded(s.queue.posted[s.queue.ran..]);
  }

  /** What has been pushed is what the writer has taken, then what is posted to it, then what is stored. */
  lemma PushedInOrder(s: State)
    requires WireOk(s) && OnePop(s) && Q.Conserved(s.queue)
    ensures s.queue.pushed == s.taken + (Q.Handed(s.queue.posted[s.queue.ran..]) + s.queue.list)
    ensures Idle(s) ==> s.queue.pushed == s.taken
  {
    PostedSplits(s.queue);
    Associate(s.taken, Q.Handed(s.queue.posted[s.queue.ran..]), s.queue.list);
    if Idle(s) {
      IdleHandsNothing(s);
    }
  }

  /**
   * Per-link completions: in every run the packets whose completion the writer has called are a prefix of
   * those pushed, in push order, so that none is called twice; once the writer is idle, all have been.
   */
  lemma CompletionsInPushOrder(steps: seq<Step>)
    ensures var s := Run(Initial(), steps);
            && s.called <= Pushed(steps)
            && (Idle(s) ==> s.called == Pushed(steps))
  {
    InitialInv();
    RunKeeps(Initial(), steps);
    RunPushes(Initial(), steps);
    assert [] + Pushed(steps) == Pushed(steps);
    PushedInOrder(Run(Initial(), steps));
  }

  /**
   * Per-link order: in every run, under every interleaving of senders, forwarders, completions,
   * partial writes, failure and shutdown, the peer has read a prefix of what was pushed, in push
   * order. Once nothing is on the way any more it has read all of it.
   */
  lemma PeerReadsPrefix(steps: seq<Step>, known: Message -> bool)
    requires forall m :: m in Pushed(steps) ==> known(m) && Framable(m)
    ensures var s := Run(Initial(), steps);
            && s.arrived <= |s.sent|
            && Received(s, known) <= Pushed(steps)
            && (Drained(s) ==> Received(s, known) == Pushed(steps))
  {
    InitialInv();
    RunKeeps(Initial(), steps);
    RunPushes(Initial(), steps);
    assert [] + Pushed(steps) == Pushed(steps);
    ReadsPrefixOfPushed(Run(Initial(), steps), known);
  }

  lemma ReadsPrefixOfPushed(s: State, known: Message -> bool)
    requires WireOk(s) && OnePop(s) && Q.Conserved(s.queue)
    requires forall m :: m in s.queue.pushed ==> known(m) && Framable(m)
    ensures Received(s, known) <= s.queue.pushed
    ensures Drained(s) ==> Received(s, known) == s.queue.pushed
  {
    var all, part := s.queue.pushed, s.sent[..s.arrived];
    PushedInOrder(s);
    FrameAllAppend(s.taken, Q.Handed(s.queue.posted[s.queue.ran..]) + s.queue.list);
    assert part <= s.sent <= FrameAll(s.taken) <= FrameAll(all);
    ReceivedIsPrefix(all, part, known);
    if Drained(s) {
      assert part == s.sent;
    }
  }

  // ----- Shutdown, and that there is always a way on -----

  /** The writer that has seen `quitting` leaves without another pop. */
  lemma LoopStops(s: State)
    requires s.quitting && s.writer.Looping?
    ensures Take(s, Loop) == s.(writer := Exited)
  {
  }

  /** A value makes the writer start its frame, a cancellation makes it return; no other completion is its own. */
  lemma CompleteOutcome(s: State)
    requires s.queue.ran < |s.queue.posted|
    ensures var p, s' := s.queue.posted[s.queue.ran], Take(s, Complete);
            && s'.queue.ran == s.queue.ran + 1 && s'.sent == s.sent && s'.called == s.called
            && (p.Value? ==> s'.writer == Writing(p.value, Frame(p.value)) && s'.taken == s.taken + [p.value])
            && (p.Canceled? ==> s'.writer == Exited && s'.taken == s.taken)
            && (!p.Value? && !p.Canceled? ==> s'.writer == s.writer && s'.taken == s.taken)
  {
  }

  lemma {:induction false} AtMostOneHanded(posted: seq<Q.Post<Message>>)
    ensures |Q.Handed(posted)| <= |Q.Settled(posted)|
    decreases |posted|
  {
    if posted != [] {
      AtMostOneHanded(posted[1..]);
    }
  }

  /** The packets that have been given to the writer or are about to be. */
  function InHand(s: State): nat
    requires s.queue.ran <= |s.queue.posted|
  {
    |s.taken| + |Q.Handed(s.queue.posted[s.queue.ran..])|
  }

  lemma QuittingEnqueue(s: State, m: Message)
    requires s.queue.waits == [] && s.queue.handlers == []
    ensures Take(s, Enqueue(m)).queue == s.queue.(list := s.queue.list + [m], pushed := s.queue.pushed + [m])
  {
    NoWaits(s.queue);
  }

  lemma QuittingComplete(s: State)
    requires s.queue.ran < |s.queue.posted|
    ensures InHand(Take(s, Complete)) == InHand(s)
  {
    assert s.queue.posted[s.queue.ran..][1..] == s.queue.posted[s.queue.ran + 1..];
  }

  lemma QuittingStep(s: State, step: Step)
    requires s.quitting && s.queue.handlers == [] && s.queue.waits == [] && s.queue.flagged == {}
    requires s.queue.ran <= |s.queue.posted|
    ensures Take(s, step).quitting && Take(s, step).queue.handlers == []
    ensures Take(s, step).queue.ran <= |Take(s, step).queue.posted| && InHand(Take(s, step)) <= InHand(s)
  {
    match step {
      case Enqueue(m) => QuittingEnqueue(s, m);
      case Complete =>
        if s.queue.ran < |s.queue.posted| {
          QuittingComplete(s);
        }
      case Quit => QuitPosts(s.queue);
      case _ =>
    }
  }

  lemma {:induction false} QuittingRun(s: State, steps: seq<Step>)
    requires Inv(s) && s.quitting && s.queue.handlers == []
    ensures var s' := Run(s, steps); s'.queue.ran <= |s'.queue.posted| && InHand(s') <= InHand(s)
    decreases |steps|
  {
    if steps != [] {
      QuittingStep(s, steps[0]);
      TakeKeeps(s, steps[0]);
      QuittingRun(Take(s, steps[0]), steps[1..]);
    }
  }

  /** One value at most is on its way to the writer: it has one pop at a time. */
  lemma OneOnItsWay(s: State)
    requires OnePop(s)
    ensures InHand(s) <= |s.taken| + 1
  {
    AtMostOneHanded(s.queue.posted[s.queue.ran..]);
  }

  lemma QuitLeaves(s: State)
    requires Inv(s)
    ensures var s' := Take(s, Quit);
            s'.quitting && s'.queue.handlers == [] && s'.taken == s.taken && Inv(s')
  {
    QuitKeeps(s);
    QuitPosts(s.queue);
  }

  /** After an interface has quit, its writer takes at most the one packet that was already on its way to it. */
  lemma QuitStopsWriter(s: State, steps: seq<Step>)
    requires Inv(s)
    ensures |Run(Take(s, Quit), steps).taken| <= |s.taken| + 1
  {
    QuitLeaves(s);
    OneOnItsWay(Take(s, Quit));
    QuittingRun(Take(s, Quit), steps);
  }

  /** All that is posted are values, and the writer has not returned: nothing has been cancelled. */
  predicate OnlyValues(s: State) {
    !s.broken && !s.quitting && !s.writer.Exited? && forall p :: p in s.queue.posted ==> p.Value?
  }

  /** The socket holds, and the interface has not quit. */
  ghost predicate Healthy(s: State) {
    Inv(s) && OnlyValues(s)
  }

  predicate Ordinary(step: Step) {
    !step.Break? && !step.Quit?
  }

  lemma StillOnlyValues(s: State, step: Step)
    requires OnlyValues(s) && s.queue.waits == [] && Ordinary(step)
    ensures OnlyValues(Take(s, step))
  {
    match step {
      case Enqueue(m) =>
        NoWaits(s.queue);
        Q.HandOutcome(s.queue, m);
      case _ =>
    }
  }

  lemma HealthyStep(s: State, step: Step)
    requires Healthy(s) && Ordinary(step)
    ensures Healthy(Take(s, step))
  {
    TakeKeeps(s, step);
    StillOnlyValues(s, step);
  }

  lemma {:induction false} RunAppend(s: State, a: seq<Step>, b: seq<Step>)
    ensures Run(s, a + b) == Run(Run(s, a), b)
    decreases |a|
  {
    if a == [] {
      assert a + b == b;
    } else {
      assert (a + b)[1..] == a[1..] + b;
      RunAppend(Take(s, a[0]), a[1..], b);
    }
  }

  lemma RunOne(s: State, step: Step)
    ensures Run(s, [step]) == Take(s, step)
  {
    assert [step][1..] == [];
  }

  /** The step that takes a writer with something to do further. */
  function Onward(s: State): Step {
    if s.writer.Writing? then Write(|s.writer.rest|)
    else if s.queue.ran < |s.queue.posted| then Complete
    else Loop
  }

  function Unrun(s: State): int {
    |s.queue.posted| - s.queue.ran
  }

  function Effort(s: State): nat {
    if s.writer.Writing? then (if s.writer.rest == [] then 1 else 2) else 0
  }

  /** A writer that waits with nothing left to run has nothing stored for it either. */
  lemma ParkedIsIdle(s: State)
    requires Healthy(s) && s.writer.Parked? && s.queue.ran == |s.queue.posted|
    ensures s.queue.list == []
  {
    assert s.queue.posted[s.queue.ran..] == [];
  }

  /** Less is left: a value fewer stored, a completion fewer to run, or less of a frame to write. */
  predicate LessLeft(s': State, s: State) {
    || |s'.queue.list| < |s.queue.list|
    || (s'.queue.list == s.queue.list && Unrun(s') < Unrun(s))
    || (s'.queue.list == s.queue.list && Unrun(s') == Unrun(s) && Effort(s') < Effort(s))
  }

  lemma WriteGoesOn(s: State)
    requires s.writer.Writing? && !s.broken
    ensures LessLeft(Take(s, Onward(s)), s)
  {
  }

  lemma CompleteGoesOn(s: State)
    requires !s.writer.Writing? && s.queue.ran < |s.queue.posted|
    ensures LessLeft(Take(s, Onward(s)), s)
  {
  }

  lemma LoopGoesOn(s: State)
    requires s.writer.Looping? && !s.quitting && s.queue.ran == |s.queue.posted| && s.queue.list != []
    ensures LessLeft(Take(s, Onward(s)), s)
  {
  }

  lemma OnwardGoesOn(s: State)
    requires Healthy(s) && !Idle(s)
    ensures LessLeft(Take(s, Onward(s)), s)
  {
    if s.writer.Writing? {
      WriteGoesOn(s);
    } else if s.queue.ran < |s.queue.posted| {
      CompleteGoesOn(s);
    } else if s.writer.Looping? {
      LoopGoesOn(s);
    } else {
      ParkedIsIdle(s);
    }
  }

  /** From every healthy state, without another push, the writer and the wire can be brought to rest. */
  lemma CanDrain(s: State) returns (steps: seq<Step>)
    requires Healthy(s)
    ensures forall step :: step in steps ==> Ordinary(step) && !step.Enqueue?
    ensures Drained(Run(s, steps))
    decreases |s.queue.list|, Unrun(s), Effort(s)
  {
    if Idle(s) {
      var n: nat := |s.sent| - s.arrived;
      steps := [Arrive(n)];
      RunOne(s, Arrive(n));
    } else {
      var s' := Take(s, Onward(s));
      HealthyStep(s, Onward(s));
      OnwardGoesOn(s);
      var rest := CanDrain(s');
      steps := [Onward(s)] + rest;
      RunOne(s, Onward(s));
      RunAppend(s, [Onward(s)], rest);
    }
  }

  lemma {:induction false} HealthyRun(s: State, steps: seq<Step>)
    requires Healthy(s) && forall step :: step in steps ==> Ordinary(step)
    ensures Healthy(Run(s, steps))
    decreases |steps|
  {
    if steps != [] {
      assert steps[0] in steps;
      HealthyStep(s, steps[0]);
      HealthyRun(Take(s, steps[0]), steps[1..]);
    }
  }

  lemma {:induction false} NothingPushed(steps: seq<Step>)
    requires forall step :: step in steps ==> !step.Enqueue?
    ensures Pushed(steps) == []
    decreases |steps|
  {
    if steps != [] {
      assert steps[0] in steps;
      NothingPushed(steps[1..]);
    }
  }

  lemma {:induction false} PushedAppend(a: seq<Step>, b: seq<Step>)
    ensures Pushed(a + b) == Pushed(a) + Pushed(b)
    decreases |a|
  {
    if a == [] {
      assert a + b == b;
    } else {
      assert (a + b)[1..] == a[1..] + b;
      PushedAppend(a[1..], b);
    }
  }

  /**
   * However far a run has come, as long as the socket holds and the interface has not quit, there is a way
   * on, without another push, after which the peer has read all that was pushed and all completions have
   * been called.
   */
  lemma AllCanArrive(steps: seq<Step>, known: Message -> bool) returns (more: seq<Step>)
    requires forall step :: step in steps ==> Ordinary(step)
    requires forall m :: m in Pushed(steps) ==> known(m) && Framable(m)
    ensures var s := Run(Initial(), steps + more);
            && s.arrived <= |s.sent| && Received(s, known) == Pushed(steps) && s.called == Pushed(steps)
  {
    InitialInv();
    HealthyRun(Initial(), steps);
    more := CanDrain(Run(Initial(), steps));
    RunAppend(Initial(), steps, more);
    NothingPushed(more);
    PushedAppend(steps, more);
    assert Pushed(steps) + [] == Pushed(steps);
    PeerReadsPrefix(steps + more, known);
    CompletionsInPushOrder(steps + more);
  }

  lemma InitialInv()
    ensures Inv(Initial())
  {
  }

  lemma {:induction false} NothingSettledNothingHanded(posted: seq<Q.Post<Message>>)
    requires Q.Settled(posted) == []
    ensures Q.Handed(posted) == []
    decreases |posted|
  {
    if posted != [] {
      NothingSettledNothingHanded(posted[1..]);
    }
  }
}
