/**
 * The coroutine queue (libavproto/src/async_coro_queue.hpp): a rendezvous queue in which either
 * values wait for consumers or consumers wait for values. Completions are posted to the io_service,
 * which runs them later, one at a time, in posting order.
 */
module CoroQueue {
  import opened Std

  /** What the io_service has been asked to run, and for which registered handler. */
  datatype Post<T> =
    | Value(id: nat, value: T)
    | Canceled(id: nat)
    | TimedOut(id: nat)
    | Ready(id: nat)
    | WaitCanceled(id: nat)

  /**
   * `list`, `handlers` and `waits` are the three containers of the source. `armed` holds the pops
   * whose deadline timer is running, `due` those whose timer has gone off but whose timer handler
   * has yet to run, and `flagged` those whose shared timed-out flag that handler has set.
   * `posted` is the io_service's queue together with its past: `ran` of its entries have run.
   * The last group is history: every value pushed, every pop and every wait registered, the tombstones
   * thrown away, and the timers whose handler ran after a result for the same pop had been posted.
   */
  datatype State<T> = State(
    list: seq<T>, handlers: seq<nat>, waits: seq<nat>, armed: set<nat>, due: set<nat>, flagged: set<nat>,
    posted: seq<Post<T>>, ran: nat, next: nat,
    pushed: seq<T>, pops: seq<nat>, waited: seq<nat>, discarded: set<nat>, late: set<nat>)

  function Initial<T>(): State<T> {
    State([], [], [], {}, {}, {}, [], 0, 0, [], [], [], {}, {})
  }

  // ----- The operations, as functions of the state -----

  /** `async_pop` without a timeout; the new handler is number `next`. */
  function Pop<T>(s: State<T>): State<T> {
    var s' := s.(next := s.next + 1, pops := s.pops + [s.next]);
    if s.list == [] then s'.(handlers := s.handlers + [s.next])
    else s'.(posted := s.posted + [Value(s.next, s.list[0])], list := s.list[1..])
  }

  /** `async_pop` with a timeout: a parked handler gets a timer, one served at once does not. */
  function PopTimed<T>(s: State<T>): State<T> {
    if s.list == [] then Pop(s).(armed := s.armed + {s.next}) else Pop(s)
  }

  /** `async_wait` */
  function Wait<T>(s: State<T>): State<T> {
    var s' := s.(next := s.next + 1, waited := s.waited + [s.next]);
    if s.list == [] then s'.(waits := s.waits + [s.next]) else s'.(posted := s.posted + [Ready(s.next)])
  }

  /** The part of `push` that wakes every `async_wait`. */
  function WakeAll<T>(s: State<T>): State<T> {
    s.(posted := s.posted + Map(h => Ready(h), s.waits), waits := [])
  }

  /** The rest of `push`: drop flagged handlers, then serve the first live one or store the value. */
  function Hand<T>(s: State<T>, v: T): State<T>
    decreases |s.handlers|
  {
    if s.handlers == [] then s.(list := s.list + [v])
    else
      var h := s.handlers[0];
      if h !in s.flagged then s.(posted := s.posted + [Value(h, v)], handlers := s.handlers[1..])
      else Hand(s.(handlers := s.handlers[1..], discarded := s.discarded + {h}), v)
  }

  /** `push` */
  function Push<T>(s: State<T>, v: T): State<T> {
    Hand(WakeAll(s), v).(pushed := s.pushed + [v])
  }

  /** The drain loop of `cancele`. */
  function Drain<T>(s: State<T>): State<T>
    decreases |s.handlers|
  {
    if s.handlers == [] then s
    else
      var h := s.handlers[0];
      Drain(if h in s.flagged then s.(handlers := s.handlers[1..], discarded := s.discarded + {h})
            else s.(handlers := s.handlers[1..], posted := s.posted + [Canceled(h)]))
  }

  /** `cancele`: waits are cancelled only if some pop handler is parked as well. */
  function Cancel<T>(s: State<T>): State<T> {
    Drain(if s.handlers == [] then s
          else s.(posted := s.posted + Map(h => WaitCanceled(h), s.waits), waits := []))
  }

  /** The deadline of pop `id` passes: from here on the timer can no longer be cancelled. */
  function Expire<T>(s: State<T>, id: nat): State<T> {
    if id !in s.armed then s else s.(armed := s.armed - {id}, due := s.due + {id})
  }

  /** The timer's handler runs: the flag is set and the pop's handler posted with an error. */
  function Fire<T>(s: State<T>, id: nat): State<T> {
    if id !in s.due then s
    else s.(due := s.due - {id}, flagged := s.flagged + {id}, posted := s.posted + [TimedOut(id)],
            late := if id in Settled(s.posted) then s.late + {id} else s.late)
  }

  /** The io_service runs the oldest completion that has not run; a result stops a running timer. */
  function RunNext<T>(s: State<T>): State<T> {
    if s.ran >= |s.posted| then s
    else
      var p := s.posted[s.ran];
      s.(ran := s.ran + 1, armed := if p.Value? || p.Canceled? then s.armed - {p.id} else s.armed)
  }

  datatype Op<T> = DoPop | DoPopTimed | DoWait | DoPush(value: T) | DoCancel
    | DoExpire(id: nat) | DoFire(id: nat) | DoRun

  function Apply<T>(s: State<T>, op: Op<T>): State<T> {
    match op
    case DoPop => Pop(s)
    case DoPopTimed => PopTimed(s)
    case DoWait => Wait(s)
    case DoPush(v) => Push(s, v)
    case DoCancel => Cancel(s)
    case DoExpire(id) => Expire(s, id)
    case DoFire(id) => Fire(s, id)
    case DoRun => RunNext(s)
  }

  function Exec<T>(s: State<T>, ops: seq<Op<T>>): State<T>
    decreases |ops|
  {
    if ops == [] then s else Exec(Apply(s, ops[0]), ops[1..])
  }

  // ----- What the completions amount to -----

  /** The values handed to consumers, in order. */
  function Handed<T>(posted: seq<Post<T>>): seq<T> {
    if posted == [] then []
    else if posted[0].Value? then [posted[0].value] + Handed(posted[1..])
    else Handed(posted[1..])
  }

  /** The pops that were given a value or cancelled, in order. */
  function Settled<T>(posted: seq<Post<T>>): seq<nat> {
    if posted == [] then []
    else if posted[0].Value? || posted[0].Canceled? then [posted[0].id] + Settled(posted[1..])
    else Settled(posted[1..])
  }

  /** The pops whose timer fired, in order. */
  function Expired<T>(posted: seq<Post<T>>): seq<nat> {
    if posted == [] then []
    else if posted[0].TimedOut? then [posted[0].id] + Expired(posted[1..])
    else Expired(posted[1..])
  }

  /** The waits that were woken or cancelled, in order. */
  function Woken<T>(posted: seq<Post<T>>): seq<nat> {
    if posted == [] then []
    else if posted[0].Ready? || posted[0].WaitCanceled? then [posted[0].id] + Woken(posted[1..])
    else Woken(posted[1..])
  }

  lemma {:induction false} HandedAppend<T>(a: seq<Post<T>>, b: seq<Post<T>>)
    ensures Handed(a + b) == Handed(a) + Handed(b)
    decreases |a|
  {
    if a == [] {
      assert a + b == b;
    } else {
      assert (a + b)[1..] == a[1..] + b;
      HandedAppend(a[1..], b);
    }
  }

  lemma {:induction false} SettledAppend<T>(a: seq<Post<T>>, b: seq<Post<T>>)
    ensures Settled(a + b) == Settled(a) + Settled(b)
    decreases |a|
  {
    if a == [] {
      assert a + b == b;
    } else {
      assert (a + b)[1..] == a[1..] + b;
      SettledAppend(a[1..], b);
    }
  }

  lemma {:induction false} ExpiredAppend<T>(a: seq<Post<T>>, b: seq<Post<T>>)
    ensures Expired(a + b) == Expired(a) + Expired(b)
    decreases |a|
  {
    if a == [] {
      assert a + b == b;
    } else {
      assert (a + b)[1..] == a[1..] + b;
      ExpiredAppend(a[1..], b);
    }
  }

  lemma {:induction false} WokenAppend<T>(a: seq<Post<T>>, b: seq<Post<T>>)
    ensures Woken(a + b) == Woken(a) + Woken(b)
    decreases |a|
  {
    if a == [] {
      assert a + b == b;
    } else {
      assert (a + b)[1..] == a[1..] + b;
      WokenAppend(a[1..], b);
    }
  }

  lemma PostAppend<T>(a: seq<Post<T>>, b: seq<Post<T>>)
    ensures Handed(a + b) == Handed(a) + Handed(b)
    ensures Settled(a + b) == Settled(a) + Settled(b)
    ensures Expired(a + b) == Expired(a) + Expired(b)
  {
    HandedAppend(a, b);
    SettledAppend(a, b);
    ExpiredAppend(a, b);
  }

  lemma PostOne<T>(a: seq<Post<T>>, p: Post<T>)
    ensures Handed(a + [p]) == if p.Value? then Handed(a) + [p.value] else Handed(a)
    ensures Settled(a + [p]) == if p.Value? || p.Canceled? then Settled(a) + [p.id] else Settled(a)
    ensures Expired(a + [p]) == if p.TimedOut? then Expired(a) + [p.id] else Expired(a)
  {
    PostAppend(a, [p]);
    assert [p][1..] == [];
  }

  lemma {:induction false} WaitsCountForNothing<T>(b: seq<Post<T>>)
    requires forall p :: p in b ==> p.Ready? || p.WaitCanceled?
    ensures Handed(b) == [] && Settled(b) == [] && Expired(b) == []
    decreases |b|
  {
    if b != [] {
      assert b[0] in b;
      WaitsCountForNothing(b[1..]);
    }
  }

  lemma PostWaits<T>(a: seq<Post<T>>, b: seq<Post<T>>)
    requires forall p :: p in b ==> p.Ready? || p.WaitCanceled?
    ensures Handed(a + b) == Handed(a) && Settled(a + b) == Settled(a) && Expired(a + b) == Expired(a)
  {
    PostAppend(a, b);
    WaitsCountForNothing(b);
  }

  // ----- The invariant of every run -----

  /** The pops that were not thrown away as tombstones, in registration order. */
  function Live(pops: seq<nat>, discarded: set<nat>): (r: seq<nat>)
    ensures forall x :: x in r <==> x in pops && x !in discarded
  {
    if pops == [] then []
    else if pops[0] in discarded then Live(pops[1..], discarded)
    else [pops[0]] + Live(pops[1..], discarded)
  }

  /** Consumers and values never wait for each other at the same time: the source's BOOST_ASSERTs. */
  predicate Quiet<T>(s: State<T>) {
    (s.handlers != [] || s.waits != []) ==> s.list == []
  }

  /** Nothing pushed is lost, duplicated or reordered. */
  ghost predicate Conserved<T>(s: State<T>) {
    s.pushed == Handed(s.posted) + s.list
  }

  /** Leaving out tombstones, pops are settled in the order in which they were registered. */
  ghost predicate Fair<T>(s: State<T>) {
    Settled(s.posted) + s.handlers == Live(s.pops, s.discarded)
  }

  /** A timer runs, is due, or has fired once; only handlers it has flagged are thrown away. */
  ghost predicate TimersOnce<T>(s: State<T>) {
    && (forall x :: x in s.flagged <==> x in Expired(s.posted))
    && s.discarded <= s.flagged
    && s.armed !! s.due && s.armed !! s.flagged && s.due !! s.flagged
    && Distinct(Expired(s.posted))
    && (forall x :: x in s.flagged || x in s.armed || x in s.due ==> x < s.next)
  }

  /** A result that has run has stopped its pop's timer. */
  ghost predicate Stopped<T>(s: State<T>) {
    s.ran <= |s.posted| && forall x :: x in s.armed ==> x !in Settled(s.posted[..s.ran])
  }

  /** Waits end once, in the order in which they were registered. */
  ghost predicate InLine<T>(s: State<T>) {
    && Woken(s.posted) + s.waits == s.waited
    && Distinct(s.waited) && (forall x :: x in s.waited ==> x < s.next)
  }

  /** A pop has both a result and a timeout exactly if its timer fired late. */
  ghost predicate LateOnly<T>(s: State<T>) {
    forall x :: x in s.late <==> x in Settled(s.posted) && x in s.flagged
  }

  ghost predicate Inv<T>(s: State<T>) {
    && Quiet(s) && Conserved(s) && Fair(s) && TimersOnce(s) && Stopped(s) && LateOnly(s) && InLine(s)
    && Distinct(s.pops) && (forall x :: x in s.pops ==> x < s.next)
  }

  lemma {:induction false} LiveAppend(pops: seq<nat>, x: nat, discarded: set<nat>)
    ensures Live(pops + [x], discarded) == Live(pops, discarded) + if x in discarded then [] else [x]
    decreases |pops|
  {
    if pops == [] {
      assert [x][1..] == [];
    } else {
      assert (pops + [x])[1..] == pops[1..] + [x];
      LiveAppend(pops[1..], x, discarded);
    }
  }

  lemma {:induction false} LiveDistinct(pops: seq<nat>, discarded: set<nat>)
    requires Distinct(pops)
    ensures Distinct(Live(pops, discarded))
    decreases |pops|
  {
    if pops != [] {
      var rest := Live(pops[1..], discarded);
      LiveDistinct(pops[1..], discarded);
      assert [pops[0]] + rest == Live(pops, discarded) || rest == Live(pops, discarded);
      assert ([pops[0]] + rest)[1..] == rest;
    }
  }

  lemma {:induction false} LiveSame(pops: seq<nat>, discarded: set<nat>, h: nat)
    requires h !in Live(pops, discarded)
    ensures Live(pops, discarded + {h}) == Live(pops, discarded)
    decreases |pops|
  {
    if pops != [] {
      LiveSame(pops[1..], discarded, h);
    }
  }

  /** Throwing away one more tombstone takes exactly that handler out of the live ones. */
  lemma {:induction false} LiveDrop(pops: seq<nat>, discarded: set<nat>, h: nat, a: seq<nat>, b: seq<nat>)
    requires Live(pops, discarded) == a + [h] + b && h !in a && h !in b
    ensures Live(pops, discarded + {h}) == a + b
    decreases |pops|
  {
    var live, rest := Live(pops, discarded), Live(pops[1..], discarded);
    if pops[0] in discarded {
      assert live == rest;
      assert h != pops[0];
      LiveDrop(pops[1..], discarded, h, a, b);
    } else {
      assert live[1..] == rest;
      if a == [] {
        assert live == [h] + b;
        assert live[1..] == b;
        LiveSame(pops[1..], discarded, h);
      } else {
        assert live[0] == a[0];
        assert live[1..] == a[1..] + [h] + b;
        LiveDrop(pops[1..], discarded, h, a[1..], b);
        assert [a[0]] + (a[1..] + b) == a + b;
      }
    }
  }

  // ----- Every operation keeps the invariant -----

  /** Posting more behind what has run starts no timer. */
  lemma StaysStopped<T>(s: State<T>, s': State<T>, more: seq<Post<T>>)
    requires Stopped(s) && s'.ran == s.ran && s'.posted == s.posted + more && s'.armed <= s.armed
    ensures Stopped(s')
  {
    assert s'.posted[..s.ran] == s.posted[..s.ran];
  }

  /** Posting what is not about a wait leaves the waits in line. */
  lemma StaysInLine<T>(s: State<T>, s': State<T>, p: Post<T>)
    requires InLine(s) && s'.posted == s.posted + [p] && !p.Ready? && !p.WaitCanceled?
    requires s'.waits == s.waits && s'.waited == s.waited && s'.next >= s.next
    ensures InLine(s')
  {
    WokenAppend(s.posted, [p]);
    assert [p][1..] == [];
  }

  /** Ending all waits at once leaves none, and all in line. */
  lemma WaitsEnd<T>(s: State<T>, s': State<T>, more: seq<Post<T>>)
    requires InLine(s) && s'.posted == s.posted + more && |more| == |s.waits|
    requires forall i :: 0 <= i < |more| ==> (more[i].Ready? || more[i].WaitCanceled?) && more[i].id == s.waits[i]
    requires s'.waits == [] && s'.waited == s.waited && s'.next == s.next
    ensures InLine(s')
  {
    WokenAppend(s.posted, more);
    WokenAll(more, s.waits);
  }

  lemma {:induction false} WokenAll<T>(more: seq<Post<T>>, ids: seq<nat>)
    requires |more| == |ids|
    requires forall i :: 0 <= i < |more| ==> (more[i].Ready? || more[i].WaitCanceled?) && more[i].id == ids[i]
    ensures Woken(more) == ids
    decreases |more|
  {
    if more != [] {
      WokenAll(more[1..], ids[1..]);
    }
  }

  /** What has run was settled for a registered pop. */
  lemma SettledSoFar<T>(s: State<T>)
    requires Fair(s) && s.ran <= |s.posted|
    ensures forall x :: x in Settled(s.posted[..s.ran]) ==> x in s.pops
  {
    assert s.posted == s.posted[..s.ran] + s.posted[s.ran..];
    SettledAppend(s.posted[..s.ran], s.posted[s.ran..]);
    forall x | x in Settled(s.posted)
      ensures x in s.pops
    {
      assert x in Settled(s.posted) + s.handlers;
    }
  }

  lemma PopParksFairly<T>(s: State<T>)
    requires Inv(s) && s.list == []
    ensures Fair(Pop(s))
  {
    LiveAppend(s.pops, s.next, s.discarded);
    assert Settled(s.posted) + (s.handlers + [s.next]) == Settled(s.posted) + s.handlers + [s.next];
  }

  /** A step that posts nothing and starts no timer leaves timers and waits as they are. */
  lemma ParksInTime<T>(s: State<T>, s': State<T>)
    requires TimersOnce(s) && Stopped(s) && LateOnly(s) && InLine(s)
    requires s'.posted == s.posted && s'.ran == s.ran && s'.waits == s.waits && s'.waited == s.waited
    requires s'.armed == s.armed && s'.due == s.due && s'.flagged == s.flagged
    requires s'.discarded == s.discarded && s'.late == s.late && s'.next >= s.next
    ensures TimersOnce(s') && Stopped(s') && LateOnly(s') && InLine(s')
  {
  }

  lemma PopParks<T>(s: State<T>)
    requires Inv(s) && s.list == []
    ensures Inv(Pop(s))
  {
    DistinctAppend(s.pops, s.next);
    PopParksFairly(s);
    ParksInTime(s, Pop(s));
  }

  lemma PopServesFairly<T>(s: State<T>)
    requires Inv(s) && s.list != []
    ensures Fair(Pop(s))
  {
    var settled := Settled(s.posted);
    PostOne(s.posted, Value(s.next, s.list[0]));
    LiveAppend(s.pops, s.next, s.discarded);
    assert settled + s.handlers == settled;
    assert settled + [s.next] + [] == settled + [s.next];
  }

  lemma PopServesInOrder<T>(s: State<T>)
    requires Conserved(s) && s.list != []
    ensures Conserved(Pop(s))
  {
    PostOne(s.posted, Value(s.next, s.list[0]));
    assert s.list == [s.list[0]] + s.list[1..];
  }

  lemma PopServes<T>(s: State<T>)
    requires Inv(s) && s.list != []
    ensures Inv(Pop(s))
  {
    var p := Value(s.next, s.list[0]);
    PopServesFairly(s);
    PopServesInOrder(s);
    SettlesInTime(s, Pop(s), p);
    StaysStopped(s, Pop(s), [p]);
    StaysInLine(s, Pop(s), p);
    DistinctAppend(s.pops, s.next);
  }

  lemma PopKeeps<T>(s: State<T>)
    requires Inv(s)
    ensures Inv(Pop(s))
  {
    if s.list == [] {
      PopParks(s);
    } else {
      PopServes(s);
    }
  }

  lemma PopTimedKeeps<T>(s: State<T>)
    requires Inv(s)
    ensures Inv(PopTimed(s))
  {
    SettledSoFar(s);
    PopKeeps(s);
  }

  lemma WaitKeeps<T>(s: State<T>)
    requires Inv(s)
    ensures Inv(Wait(s))
  {
    PostOne(s.posted, Ready(s.next));
    DistinctAppend(s.waited, s.next);
    if s.list != [] {
      StaysStopped(s, Wait(s), [Ready(s.next)]);
      WokenAppend(s.posted, [Ready(s.next)]);
      assert [Post<T>.Ready(s.next)][1..] == [];
      assert Woken(s.posted) + [] == Woken(s.posted);
      assert Woken(s.posted) + [s.next] + [] == Woken(s.posted) + [s.next];
    } else {
      assert Woken(s.posted) + (s.waits + [s.next]) == Woken(s.posted) + s.waits + [s.next];
    }
  }

  lemma WakeKeeps<T>(s: State<T>)
    requires Inv(s)
    ensures Inv(WakeAll(s))
  {
    StaysStopped(s, WakeAll(s), Map(h => Ready(h), s.waits));
    WaitsEnd(s, WakeAll(s), Map(h => Ready(h), s.waits));
    PostWaits(s.posted, Map(h => Ready(h), s.waits));
  }

  lemma DiscardKeeps<T>(s: State<T>)
    requires Inv(s) && s.handlers != [] && s.handlers[0] in s.flagged
    ensures Inv(s.(handlers := s.handlers[1..], discarded := s.discarded + {s.handlers[0]}))
  {
    var h, settled := s.handlers[0], Settled(s.posted);
    LiveDistinct(s.pops, s.discarded);
    assert settled + s.handlers == settled + [h] + s.handlers[1..];
    DistinctMiddle(settled, h, s.handlers[1..]);
    LiveDrop(s.pops, s.discarded, h, settled, s.handlers[1..]);
  }

  lemma MovesAcross(a: seq<nat>, b: seq<nat>)
    requires b != []
    ensures a + [b[0]] + b[1..] == a + b
  {
  }

  lemma SettlesFairly<T>(s: State<T>, p: Post<T>)
    requires Inv(s) && s.handlers != [] && (p.Value? || p.Canceled?) && p.id == s.handlers[0]
    ensures Settled(s.posted + [p]) + s.handlers[1..] == Live(s.pops, s.discarded)
  {
    PostOne(s.posted, p);
    MovesAcross(Settled(s.posted), s.handlers);
  }

  /** A handler at the front of the line is given its result: it is settled here and nowhere else. */
  lemma SettleKeeps<T>(s: State<T>, p: Post<T>)
    requires Inv(s) && s.handlers != [] && s.handlers[0] !in s.flagged
    requires (p.Value? || p.Canceled?) && p.id == s.handlers[0]
    ensures Inv(s.(handlers := s.handlers[1..], posted := s.posted + [p],
                   pushed := if p.Value? then s.pushed + [p.value] else s.pushed))
  {
    var s' := s.(handlers := s.handlers[1..], posted := s.posted + [p],
                 pushed := if p.Value? then s.pushed + [p.value] else s.pushed);
    SettlesFairly(s, p);
    SettlesConserved(s, p);
    SettlesInTime(s, s', p);
    StaysStopped(s, s', [p]);
    StaysInLine(s, s', p);
  }

  lemma SettlesInTime<T>(s: State<T>, s': State<T>, p: Post<T>)
    requires TimersOnce(s) && LateOnly(s) && (p.Value? || p.Canceled?) && p.id !in s.flagged
    requires s'.posted == s.posted + [p] && s'.flagged == s.flagged && s'.armed == s.armed && s'.due == s.due
    requires s'.discarded == s.discarded && s'.late == s.late && s'.next >= s.next
    ensures TimersOnce(s') && LateOnly(s')
  {
    PostOne(s.posted, p);
  }

  lemma SettlesConserved<T>(s: State<T>, p: Post<T>)
    requires Conserved(s) && s.list == []
    ensures (if p.Value? then s.pushed + [p.value] else s.pushed) == Handed(s.posted + [p]) + s.list
  {
    PostOne(s.posted, p);
  }

  /** `push` hands the value to the first live handler, or stores it if there is none. */
  lemma {:induction false} HandKeeps<T>(s: State<T>, v: T)
    requires Inv(s) && s.waits == []
    ensures Inv(Hand(s, v).(pushed := s.pushed + [v]))
    decreases |s.handlers|
  {
    if s.handlers != [] {
      var h := s.handlers[0];
      if h in s.flagged {
        DiscardKeeps(s);
        HandKeeps(s.(handlers := s.handlers[1..], discarded := s.discarded + {h}), v);
      } else {
        SettleKeeps(s, Value(h, v));
      }
    }
  }

  lemma PushKeeps<T>(s: State<T>, v: T)
    requires Inv(s)
    ensures Inv(Push(s, v))
  {
    WakeKeeps(s);
    HandKeeps(WakeAll(s), v);
  }

  lemma {:induction false} DrainKeeps<T>(s: State<T>)
    requires Inv(s)
    ensures Inv(Drain(s))
    decreases |s.handlers|
  {
    if s.handlers != [] {
      var h := s.handlers[0];
      if h in s.flagged {
        DiscardKeeps(s);
        DrainKeeps(s.(handlers := s.handlers[1..], discarded := s.discarded + {h}));
      } else {
        SettleKeeps(s, Canceled(h));
        DrainKeeps(s.(handlers := s.handlers[1..], posted := s.posted + [Canceled(h)]));
      }
    }
  }

  /**
   * `cancele` ends every parked pop and loses no stored value, but it ends the parked waits only if
   * some pop is parked with them.
   */
  lemma CancelKeeps<T>(s: State<T>)
    requires Inv(s)
    ensures Inv(Cancel(s)) && Cancel(s).handlers == []
    ensures Cancel(s).list == s.list && Cancel(s).pushed == s.pushed
    ensures Cancel(s).waits == [] <==> s.waits == [] || s.handlers != []
  {
    PostWaits(s.posted, Map(h => WaitCanceled(h), s.waits));
    var s' := if s.handlers == [] then s
              else s.(posted := s.posted + Map(h => WaitCanceled(h), s.waits), waits := []);
    if s.handlers != [] {
      StaysStopped(s, s', Map(h => WaitCanceled(h), s.waits));
      WaitsEnd(s, s', Map(h => WaitCanceled(h), s.waits));
    }
    DrainKeeps(s');
    DrainEmpties(s');
  }

  lemma {:induction false} DrainEmpties<T>(s: State<T>)
    ensures Drain(s).handlers == [] && Drain(s).list == s.list
    ensures Drain(s).pushed == s.pushed && Drain(s).waits == s.waits
    decreases |s.handlers|
  {
    if s.handlers != [] {
      var h := s.handlers[0];
      DrainEmpties(if h in s.flagged then s.(handlers := s.handlers[1..], discarded := s.discarded + {h})
                   else s.(handlers := s.handlers[1..], posted := s.posted + [Canceled(h)]));
    }
  }

  lemma ExpireKeeps<T>(s: State<T>, id: nat)
    requires Inv(s)
    ensures Inv(Expire(s, id))
  {
  }

  lemma FireKeeps<T>(s: State<T>, id: nat)
    requires Inv(s)
    ensures Inv(Fire(s, id))
  {
    if id in s.due {
      PostOne(s.posted, TimedOut(id));
      DistinctAppend(Expired(s.posted), id);
      StaysStopped(s, Fire(s, id), [TimedOut(id)]);
      StaysInLine(s, Fire(s, id), TimedOut(id));
    }
  }

  /** The result that runs stops its timer. */
  lemma RunNextKeeps<T>(s: State<T>)
    requires Inv(s)
    ensures Inv(RunNext(s))
  {
    if s.ran < |s.posted| {
      assert s.posted[..s.ran + 1] == s.posted[..s.ran] + [s.posted[s.ran]];
      PostOne(s.posted[..s.ran], s.posted[s.ran]);
    }
  }

  lemma StepKeeps<T>(s: State<T>, op: Op<T>)
    requires Inv(s)
    ensures Inv(Apply(s, op))
  {
    match op {
      case DoPop => PopKeeps(s);
      case DoPopTimed => PopTimedKeeps(s);
      case DoWait => WaitKeeps(s);
      case DoPush(v) => PushKeeps(s, v);
      case DoCancel => CancelKeeps(s);
      case DoExpire(id) => ExpireKeeps(s, id);
      case DoFire(id) => FireKeeps(s, id);
      case DoRun => RunNextKeeps(s);
    }
  }

  lemma {:induction false} RunKeeps<T>(s: State<T>, ops: seq<Op<T>>)
    requires Inv(s)
    ensures Inv(Exec(s, ops))
    decreases |ops|
  {
    if ops != [] {
      StepKeeps(s, ops[0]);
      RunKeeps(Apply(s, ops[0]), ops[1..]);
    }
  }

  // ----- Consequences for every run -----

  ghost predicate Untimed<T>(s: State<T>) {
    s.armed == {} && s.due == {} && s.flagged == {}
  }

  lemma UntimedStep<T>(s: State<T>, op: Op<T>)
    requires Untimed(s) && !op.DoPopTimed?
    ensures Untimed(Apply(s, op))
  {
    match op {
      case DoPush(v) => HandOutcome(WakeAll(s), v);
      case DoCancel =>
        DrainTimers(s);
        DrainTimers(s.(posted := s.posted + Map(h => WaitCanceled(h), s.waits), waits := []));
      case _ =>
    }
  }

  /** A run that uses no timed pop never sets a flag. */
  lemma {:induction false} UntimedRun<T>(s: State<T>, ops: seq<Op<T>>)
    requires Untimed(s) && forall op :: op in ops ==> !op.DoPopTimed?
    ensures Untimed(Exec(s, ops))
    decreases |ops|
  {
    if ops != [] {
      assert ops[0] in ops;
      UntimedStep(s, ops[0]);
      UntimedRun(Apply(s, ops[0]), ops[1..]);
    }
  }

  lemma {:induction false} DrainTimers<T>(s: State<T>)
    ensures Drain(s).armed == s.armed && Drain(s).due == s.due
    ensures Drain(s).flagged == s.flagged && Drain(s).late == s.late
    decreases |s.handlers|
  {
    if s.handlers != [] {
      var h := s.handlers[0];
      DrainTimers(if h in s.flagged then s.(handlers := s.handlers[1..], discarded := s.discarded + {h})
                  else s.(handlers := s.handlers[1..], posted := s.posted + [Canceled(h)]));
    }
  }

  /**
   * Untimed pops, over any run from the empty queue: the values handed out followed by those stored
   * are exactly the values pushed, and the pops completed followed by those parked are exactly the
   * pops registered, in order; so each pop completes at most once, and is never forgotten.
   */
  lemma ExactlyOnceInOrder<T>(ops: seq<Op<T>>)
    requires forall op :: op in ops ==> !op.DoPopTimed?
    ensures var s := Exec(Initial(), ops);
            && s.pushed == Handed(s.posted) + s.list
            && s.pops == Settled(s.posted) + s.handlers
            && Distinct(s.pops)
            && Expired(s.posted) == []
            && (s.handlers != [] ==> s.list == [])
  {
    RunKeeps(Initial<T>(), ops);
    UntimedRun(Initial<T>(), ops);
    var s := Exec(Initial<T>(), ops);
    assert s.discarded == {};
    LiveAll(s.pops);
    HeadIsIn(Expired(s.posted));
  }

  lemma {:induction false} LiveAll(pops: seq<nat>)
    ensures Live(pops, {}) == pops
    decreases |pops|
  {
    if pops != [] {
      LiveAll(pops[1..]);
    }
  }

  /**
   * Waits, over any run: those woken or cancelled followed by those parked are exactly those registered, in
   * order; so each completes at most once, and is never forgotten.
   */
  lemma WaitsOnceInOrder<T>(ops: seq<Op<T>>)
    ensures var s := Exec(Initial<T>(), ops);
            Woken(s.posted) + s.waits == s.waited && Distinct(s.waited)
  {
    RunKeeps(Initial<T>(), ops);
  }

  /** `cancele` does not end every parked operation: with no pop parked, a parked wait stays. */
  lemma CancelLeavesWait()
    ensures Exec(Initial<int>(), [DoWait, DoCancel]).waits == [0]
  {
    var s := Apply(Initial<int>(), DoWait);
    assert [DoWait, DoCancel][1..] == [Op<int>.DoCancel];
    assert Exec(s, [DoCancel]) == Apply(s, DoCancel);
  }

  /** The first handler in line whose flag is not set. */
  function FirstLive(handlers: seq<nat>, flagged: set<nat>): Option<nat> {
    if handlers == [] then None
    else if handlers[0] !in flagged then Some(handlers[0])
    else FirstLive(handlers[1..], flagged)
  }

  lemma {:induction false} HandOutcome<T>(s: State<T>, v: T)
    ensures var s' := Hand(s, v);
            && s'.armed == s.armed && s'.due == s.due && s'.flagged == s.flagged && s'.late == s.late
            && s'.pushed == s.pushed
            && match FirstLive(s.handlers, s.flagged)
               case Some(h) => s'.posted == s.posted + [Value(h, v)] && s'.list == s.list
               case None => s'.posted == s.posted && s'.list == s.list + [v] && s'.handlers == []
    decreases |s.handlers|
  {
    if s.handlers != [] && s.handlers[0] in s.flagged {
      HandOutcome(s.(handlers := s.handlers[1..], discarded := s.discarded + {s.handlers[0]}), v);
    }
  }

  /**
   * `push` gives the value to the first parked handler that has not timed out, past any number of
   * tombstones, and stores it exactly when there is none; a flagged handler never receives it.
   */
  lemma PushOutcome<T>(s: State<T>, v: T)
    requires Inv(s)
    ensures var s' := Push(s, v);
            && s'.armed == s.armed && s'.due == s.due && s'.flagged == s.flagged && s'.late == s.late && s'.waits == []
            && match FirstLive(s.handlers, s.flagged)
               case Some(h) =>
                 && s'.posted == s.posted + Map(w => Ready(w), s.waits) + [Value(h, v)]
                 && s'.list == [] && h !in s.flagged
                 && Settled(s'.posted) == Settled(s.posted) + [h]
               case None =>
                 && s'.posted == s.posted + Map(w => Ready(w), s.waits) && s'.list == s.list + [v] && s'.handlers == []
                 && Settled(s'.posted) == Settled(s.posted)
  {
    var woken := WakeAll(s);
    PostWaits(s.posted, Map(h => Ready(h), s.waits));
    HandOutcome(woken, v);
    FirstLiveIsLive(s.handlers, s.flagged);
    var live := FirstLive(s.handlers, s.flagged);
    if live.Some? {
      PostOne(woken.posted, Value(live.value, v));
    }
    HandWaits(woken, v);
  }

  /** A pop takes the front of the list if there is one, and else its place at the end of the line. */
  lemma PopOutcome<T>(s: State<T>)
    ensures var s' := Pop(s);
            if s.list == []
            then s' == s.(handlers := s.handlers + [s.next], next := s.next + 1, pops := s.pops + [s.next])
            else s' == s.(list := s.list[1..], posted := s.posted + [Value(s.next, s.list[0])],
                          next := s.next + 1, pops := s.pops + [s.next])
    ensures PopTimed(s) == if s.list == [] then Pop(s).(armed := s.armed + {s.next}) else Pop(s)
  {
  }

  /** A wait with values stored is ready at once, and takes none of them. */
  lemma WaitOutcome<T>(s: State<T>)
    ensures Wait(s).list == s.list && Wait(s).handlers == s.handlers
    ensures if s.list == [] then Wait(s).posted == s.posted && Wait(s).waits == s.waits + [s.next]
            else Wait(s).posted == s.posted + [Ready(s.next)] && Wait(s).waits == s.waits
  {
  }

  lemma {:induction false} DrainOutcome<T>(s: State<T>)
    ensures Drain(s).posted == s.posted + Map(h => Canceled(h), Filter(s.handlers, h => h !in s.flagged))
    decreases |s.handlers|
  {
    if s.handlers == [] {
      assert s.posted + [] == s.posted;
    } else {
      var h, live := s.handlers[0], Filter(s.handlers[1..], x => x !in s.flagged);
      if h in s.flagged {
        DrainOutcome(s.(handlers := s.handlers[1..], discarded := s.discarded + {h}));
      } else {
        DrainOutcome(s.(handlers := s.handlers[1..], posted := s.posted + [Canceled(h)]));
        assert Map(x => Post<T>.Canceled(x), [h] + live) == [Canceled(h)] + Map(x => Canceled(x), live);
      }
    }
  }

  /** `cancele` cancels the parked waits, if a pop is parked, and then every live pop, each in its order. */
  lemma CancelOutcome<T>(s: State<T>)
    ensures Cancel(s).posted ==
            s.posted + (if s.handlers == [] then [] else Map(h => WaitCanceled(h), s.waits))
            + Map(h => Canceled(h), Filter(s.handlers, h => h !in s.flagged))
    ensures Cancel(s).armed == s.armed && Cancel(s).due == s.due && Cancel(s).flagged == s.flagged
  {
    var s' := if s.handlers == [] then s
              else s.(posted := s.posted + Map(h => WaitCanceled(h), s.waits), waits := []);
    DrainOutcome(s');
    DrainTimers(s');
    assert s.posted + [] == s.posted;
  }

  /** A deadline that passes makes its own timer due and no other, and touches nothing else. */
  lemma ExpireOutcome<T>(s: State<T>, id: nat)
    ensures forall x :: x in Expire(s, id).armed <==> x in s.armed && x != id
    ensures forall x :: x in Expire(s, id).due <==> x in s.due || (x == id && id in s.armed)
    ensures Expire(s, id) == s.(armed := Expire(s, id).armed, due := Expire(s, id).due)
  {
  }

  /** A timer handler that runs posts the timeout of its own pop and flags it, and no other. */
  lemma FireOutcome<T>(s: State<T>, id: nat)
    ensures id in s.due ==>
              Fire(s, id).posted == s.posted + [TimedOut(id)] && Fire(s, id).flagged == s.flagged + {id}
              && Fire(s, id).due == s.due - {id}
    ensures id !in s.due ==> Fire(s, id) == s
    ensures Fire(s, id).list == s.list && Fire(s, id).handlers == s.handlers && Fire(s, id).armed == s.armed
  {
  }

  /** The oldest completion runs; a value or a cancellation stops the timer of its own pop and no other. */
  lemma RunNextOutcome<T>(s: State<T>)
    ensures s.ran >= |s.posted| ==> RunNext(s) == s
    ensures s.ran < |s.posted| ==>
              var p, s' := s.posted[s.ran], RunNext(s);
              && s'.ran == s.ran + 1 && s' == s.(ran := s'.ran, armed := s'.armed)
              && (forall x :: x in s'.armed <==> x in s.armed && !(x == p.id && (p.Value? || p.Canceled?)))
  {
  }

  lemma {:induction false} FirstLiveIsLive(handlers: seq<nat>, flagged: set<nat>)
    ensures match FirstLive(handlers, flagged)
            case Some(h) => h in handlers && h !in flagged
            case None => forall h :: h in handlers ==> h in flagged
    decreases |handlers|
  {
    if handlers != [] && handlers[0] in flagged {
      FirstLiveIsLive(handlers[1..], flagged);
    }
  }

  lemma {:induction false} HandWaits<T>(s: State<T>, v: T)
    ensures Hand(s, v).waits == s.waits
    decreases |s.handlers|
  {
    if s.handlers != [] && s.handlers[0] in s.flagged {
      HandWaits(s.(handlers := s.handlers[1..], discarded := s.discarded + {s.handlers[0]}), v);
    }
  }

  /** The pop has been given two completions: a result and a timeout. */
  ghost predicate Twice<T>(s: State<T>, id: nat) {
    id in Settled(s.posted) && id in Expired(s.posted)
  }

  /** The timer handler of `id` is about to run, and a result for `id` has been posted before it. */
  ghost predicate TooLate<T>(s: State<T>, id: nat) {
    id in s.due && id in Settled(s.posted)
  }

  lemma LateStep<T>(s: State<T>, op: Op<T>, id: nat)
    requires Inv(s)
    ensures id in Apply(s, op).late <==> id in s.late || (op == DoFire(id) && TooLate(s, id))
  {
    match op {
      case DoPush(v) => PushOutcome(s, v);
      case DoCancel =>
        DrainTimers(s);
        DrainTimers(s.(posted := s.posted + Map(h => WaitCanceled(h), s.waits), waits := []));
      case _ =>
    }
  }

  /** One step gives a pop its second completion exactly if it runs the pop's timer handler too late. */
  lemma SecondCompletion<T>(s: State<T>, op: Op<T>, id: nat)
    requires Inv(s)
    ensures Twice(Apply(s, op), id) <==> Twice(s, id) || (op == DoFire(id) && TooLate(s, id))
  {
    StepKeeps(s, op);
    LateStep(s, op, id);
    assert LateOnly(s) && LateOnly(Apply(s, op));
  }

  lemma ExecShift<T>(s: State<T>, ops: seq<Op<T>>, n: nat)
    requires 0 < n <= |ops|
    ensures Exec(s, ops[..n]) == Exec(Apply(s, ops[0]), ops[1..][..n - 1])
  {
    assert ops[..n][1..] == ops[1..][..n - 1];
  }

  lemma {:induction false} TwiceFrom<T>(s: State<T>, ops: seq<Op<T>>, id: nat)
    requires Inv(s)
    ensures Twice(Exec(s, ops), id) <==>
            Twice(s, id) || exists n: nat :: n < |ops| && ops[n] == DoFire(id) && TooLate(Exec(s, ops[..n]), id)
    decreases |ops|
  {
    if ops != [] {
      var s', rest := Apply(s, ops[0]), ops[1..];
      StepKeeps(s, ops[0]);
      SecondCompletion(s, ops[0], id);
      TwiceFrom(s', rest, id);
      assert Exec(s, ops[..0]) == s;
      if n: nat :| n < |ops| && ops[n] == DoFire(id) && TooLate(Exec(s, ops[..n]), id) {
        if n > 0 {
          ExecShift(s, ops, n);
          assert rest[n - 1] == DoFire(id);
        }
      }
      if n: nat :| n < |rest| && rest[n] == DoFire(id) && TooLate(Exec(s', rest[..n]), id) {
        ExecShift(s, ops, n + 1);
        assert ops[n + 1] == DoFire(id);
      }
    }
  }

  /**
   * Timed pops: over any run, a pop is settled at most once and times out at most once, and it does
   * both exactly if at some point its timer handler ran with a result already posted.
   */
  lemma TwiceOnlyIfLate<T>(ops: seq<Op<T>>, id: nat)
    ensures var s := Exec(Initial<T>(), ops);
            && Distinct(Settled(s.posted) + s.handlers) && Distinct(Expired(s.posted))
            && (id in Settled(s.posted) && id in Expired(s.posted) <==>
                exists n: nat :: n < |ops| && ops[n] == DoFire(id) && TooLate(Exec(Initial<T>(), ops[..n]), id))
  {
    RunKeeps(Initial<T>(), ops);
    var s := Exec(Initial<T>(), ops);
    LiveDistinct(s.pops, s.discarded);
    TwiceFrom(Initial<T>(), ops, id);
  }

  /** A timer goes off only while it runs, that is, before any result of its pop has run. */
  ghost predicate GoesOff<T>(s: State<T>, id: nat) {
    id in s.armed && s.ran <= |s.posted| && id !in Settled(s.posted[..s.ran])
  }

  lemma {:induction false} DueFrom<T>(s: State<T>, ops: seq<Op<T>>, id: nat)
    requires id in Exec(s, ops).due || id in Exec(s, ops).flagged
    ensures id in s.due || id in s.flagged
              || exists m: nat :: m < |ops| && ops[m] == DoExpire(id) && id in Exec(s, ops[..m]).armed
    decreases |ops|
  {
    if ops != [] {
      var s', rest := Apply(s, ops[0]), ops[1..];
      DueStep(s, ops[0], id);
      DueFrom(s', rest, id);
      assert Exec(s, ops[..0]) == s;
      if id !in s'.due && id !in s'.flagged {
        var m: nat :| m < |rest| && rest[m] == DoExpire(id) && id in Exec(s', rest[..m]).armed;
        ExecShift(s, ops, m + 1);
        assert ops[m + 1] == DoExpire(id);
      }
    }
  }

  lemma DueStep<T>(s: State<T>, op: Op<T>, id: nat)
    ensures id in Apply(s, op).due || id in Apply(s, op).flagged ==>
              id in s.due || id in s.flagged || (op == DoExpire(id) && id in s.armed)
  {
    match op {
      case DoPush(v) => HandOutcome(WakeAll(s), v);
      case DoCancel =>
        DrainTimers(s);
        DrainTimers(s.(posted := s.posted + Map(h => WaitCanceled(h), s.waits), waits := []));
      case _ =>
    }
  }

  /** No timeout without a deadline that passed before any result of the pop had run. */
  lemma TimeoutWasDue<T>(ops: seq<Op<T>>, id: nat)
    requires id in Expired(Exec(Initial<T>(), ops).posted)
    ensures exists m: nat :: m < |ops| && ops[m] == DoExpire(id) && GoesOff(Exec(Initial<T>(), ops[..m]), id)
  {
    RunKeeps(Initial<T>(), ops);
    DueFrom(Initial<T>(), ops, id);
    var m: nat :| m < |ops| && ops[m] == DoExpire(id) && id in Exec(Initial<T>(), ops[..m]).armed;
    RunKeeps(Initial<T>(), ops[..m]);
    assert Stopped(Exec(Initial<T>(), ops[..m]));
  }

  /** The timed overload does not complete exactly once: here its one pop gets a value and a timeout. */
  lemma TimedPopCompletesTwice<T>(v: T)
    ensures Exec(Initial<T>(), [DoPopTimed, DoPush(v), DoExpire(0), DoFire(0)]).posted == [Value(0, v), TimedOut(0)]
  {
    var s1 := Apply(Initial<T>(), DoPopTimed);
    var s2 := Apply(s1, DoPush(v));
    assert s2.posted == [Value(0, v)];
    var s3 := Apply(s2, DoExpire(0));
    var last: seq<Op<T>> := [DoFire(0)];
    var later: seq<Op<T>> := [DoExpire(0), DoFire(0)];
    var rest := [DoPush(v), DoExpire(0), DoFire(0)];
    assert later[1..] == last && rest[1..] == later && ([DoPopTimed] + rest)[1..] == rest;
    assert Exec(s3, last) == Apply(s3, DoFire(0));
    assert Exec(s1, rest) == Exec(s2, later) == Exec(s3, last);
    assert [DoPopTimed, DoPush(v), DoExpire(0), DoFire(0)] == [DoPopTimed] + rest;
  }

  // ----- The queue object -----

  /**
   * The object itself. The io_service's posting queue and the timers it owns are fields here; the
   * ghost fields are the histories that the invariant speaks about.
   */
  class Queue<T> {
    var list: seq<T>
    var handlers: seq<nat>
    var waits: seq<nat>
    var armed: set<nat>
    var due: set<nat>
    var flagged: set<nat>
    var posted: seq<Post<T>>
    var ran: nat
    var next: nat
    ghost var pushed: seq<T>
    ghost var pops: seq<nat>
    ghost var waited: seq<nat>
    ghost var discarded: set<nat>
    ghost var late: set<nat>

    ghost function View(): State<T>
      reads this
    {
      State(list, handlers, waits, armed, due, flagged, posted, ran, next, pushed, pops, waited, discarded, late)
    }

    constructor ()
      ensures View() == Initial() && Inv(View())
    {
      list, handlers, waits, armed, due, flagged := [], [], [], {}, {}, {};
      posted, ran, next := [], 0, 0;
      pushed, pops, waited, discarded, late := [], [], [], {}, {};
    }

    method AsyncPop() returns (id: nat)
      requires Inv(View())
      modifies this
      ensures View() == Pop(old(View())) && Inv(View()) && id == old(next)
    {
      ghost var before := View();
      id := next;
      next, pops := next + 1, pops + [id];
      if list == [] {
        handlers := handlers + [id];
      } else {
        posted := posted + [Value(id, list[0])];
        list := list[1..];
      }
      assert View() == Pop(before);
      PopKeeps(before);
    }

    method AsyncPopTimed() returns (id: nat)
      requires Inv(View())
      modifies this
      ensures View() == PopTimed(old(View())) && Inv(View()) && id == old(next)
    {
      PopTimedKeeps(View());
      AsyncPopTimedImpl();
      id := next - 1;
    }

    /** The timed `async_pop_impl`, which numbers its handler. */
    method AsyncPopTimedImpl()
      modifies this
      ensures View() == PopTimed(old(View()))
    {
      var id := next;
      next, pops := next + 1, pops + [id];
      if list == [] {
        armed := armed + {id};
        handlers := handlers + [id];
      } else {
        posted := posted + [Value(id, list[0])];
        list := list[1..];
      }
    }

    method AsyncWait() returns (id: nat)
      requires Inv(View())
      modifies this
      ensures View() == Wait(old(View())) && Inv(View()) && id == old(next)
    {
      ghost var before := View();
      id := next;
      next, waited := next + 1, waited + [id];
      if list == [] {
        waits := waits + [id];
      } else {
        posted := posted + [Ready(id)];
      }
      assert View() == Wait(before);
      WaitKeeps(before);
    }

    /** `push`; both assertions of the source are proved, and the recursion ends. */
    method PushValue(value: T)
      requires Inv(View())
      modifies this
      ensures View() == Push(old(View()), value) && Inv(View())
    {
      PushKeeps(View(), value);
      ghost var woken := WakeAll(View());
      if waits != [] {
        assert list == [];
        posted := posted + Map(h => Ready(h), waits);
        waits := [];
      } else {
        assert Map(h => Post<T>.Ready(h), waits) == [];
        assert posted + [] == posted;
      }
      assert View() == woken;
      HandOutcome(woken, value);
      GiveOrStore(value);
      pushed := pushed + [value];
    }

    /** The second half of `push`; a tombstone is dropped and the push starts again. */
    method GiveOrStore(value: T)
      requires handlers != [] ==> list == []
      modifies this
      ensures View() == Hand(old(View()), value)
      decreases |handlers|
    {
      if handlers != [] {
        assert list == [];
        var h := handlers[0];
        if h !in flagged {
          posted := posted + [Value(h, value)];
          handlers := handlers[1..];
        } else {
          handlers, discarded := handlers[1..], discarded + {h};
          GiveOrStore(value);
        }
      } else {
        list := list + [value];
      }
    }

    method Cancele()
      requires Inv(View())
      modifies this
      ensures View() == Cancel(old(View())) && Inv(View())
    {
      CancelKeeps(View());
      ghost var goal := Cancel(View());
      if handlers != [] {
        posted := posted + Map(h => WaitCanceled(h), waits);
        waits := [];
      }
      while handlers != []
        invariant Drain(View()) == goal
        decreases |handlers|
      {
        var h := handlers[0];
        if h !in flagged {
          posted := posted + [Canceled(h)];
        } else {
          discarded := discarded + {h};
        }
        handlers := handlers[1..];
      }
    }

    /** The deadline of pop `id` passes. */
    method TimerExpires(id: nat)
      requires Inv(View())
      modifies this
      ensures View() == Expire(old(View()), id) && Inv(View())
    {
      ghost var before := View();
      if id in armed {
        armed, due := armed - {id}, due + {id};
      }
      assert View() == Expire(before, id);
      ExpireKeeps(before, id);
    }

    /** The timer handler of pop `id` runs. */
    method TimerFires(id: nat)
      requires Inv(View())
      modifies this
      ensures View() == Fire(old(View()), id) && Inv(View())
    {
      ghost var before := View();
      if id in due {
        late := if id in Settled(posted) then late + {id} else late;
        flagged, due := flagged + {id}, due - {id};
        posted := posted + [TimedOut(id)];
      }
      assert View() == Fire(before, id);
      FireKeeps(before, id);
    }

    /** The io_service runs one posted completion. */
    method RunOne() returns (done: Option<Post<T>>)
      requires Inv(View())
      modifies this
      ensures View() == RunNext(old(View())) && Inv(View())
      ensures done == if old(ran) < |old(posted)| then Some(old(posted)[old(ran)]) else None
    {
      ghost var before := View();
      if ran < |posted| {
        var p := posted[ran];
        done := Some(p);
        ran := ran + 1;
        if p.Value? || p.Canceled? {
          armed := armed - {p.id};
        }
      } else {
        done := None;
      }
      assert View() == RunNext(before);
      RunNextKeeps(before);
    }
  }
}
