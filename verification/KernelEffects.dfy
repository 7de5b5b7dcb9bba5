/**
 * What one step of the kernel costs and leaves behind: the load it puts on the network, the fields
 * of sends that never change, and which waiters it releases.
 */
module KernelEffects {
  import opened Std
  import opened Address
  import opened Cipher
  import opened KeyStore
  import opened Protocol
  import opened KernelInvariant

  // ----- Load -----

  /** An upper bound on the processing a packet can still cause by being forwarded or answered. */
  function Weight(p: Packet): int {
    (if p.ttl > 1 then p.ttl else 1) + if p.kind.PkAsk? then INITIAL_TTL else 0
  }

  function PushWeight(p: Push): int {
    Weight(p.packet)
  }

  /** What a waiting send may still enqueue: its remaining requests, and the data packet. */
  function Budget(send: Send): int {
    if send.phase.Waiting? then (MAX_ASKS - send.asks) * (2 * INITIAL_TTL) + INITIAL_TTL else 0
  }

  /** The weight of all packets enqueued so far and of all those that may still be. */
  function Load(s: State): int {
    Sum(Budget, s.sends) + Sum(PushWeight, s.outbox)
  }

  lemma AskLoad(s: State, id: nat, now: int)
    requires id < |s.sends| && s.sends[id].iface.Some? && s.sends[id].phase.Waiting? && s.sends[id].asks < MAX_ASKS
    ensures Load(AskForKey(s, id, now)) == Load(s)
  {
    var send := s.sends[id];
    SumUpdate(Budget, s.sends, id, send.(asks := send.asks + 1, phase := Waiting));
    SumOne(PushWeight, s.outbox, Push(send.iface.value, AskPacket(send.iface.value, send.target), Ask(id)));
  }

  lemma TransmitLoad(w: World, s: State, id: nat, key: Modulus)
    requires id < |s.sends| && s.sends[id].iface.Some? && s.sends[id].phase.Waiting? && s.sends[id].asks <= MAX_ASKS
    ensures Load(Transmit(w, s, id, key)) <= Load(s)
  {
    var send := s.sends[id];
    var packet := DataPacket(w, send.iface.value, send.target, key, send.draw, send.data);
    SumUpdate(Budget, s.sends, id, send.(phase := Writing));
    SumOne(PushWeight, s.outbox, Push(send.iface.value, packet, Data(id)));
  }

  lemma FinishLoad(s: State, id: nat, code: Code)
    requires id < |s.sends| && (s.sends[id].phase.Waiting? ==> s.sends[id].asks <= MAX_ASKS)
    ensures Load(Finish(s, id, code)) <= Load(s)
  {
    SumUpdate(Budget, s.sends, id, s.sends[id].(phase := Done(code)));
  }

  lemma ResumeLoad(w: World, s: State, id: nat, rest: seq<nat>, now: int)
    requires InvWith(s, [id] + rest)
    ensures Load(ResumeSend(w, s, id, now)) <= Load(s)
  {
    LooseIsWaiting(s, id, rest);
    match Find(s.store, s.sends[id].target)
    case Some(key) => TransmitLoad(w, s, id, key);
    case None =>
      if s.sends[id].asks < MAX_ASKS {
        AskLoad(s, id, now);
      } else {
        FinishLoad(s, id, Unreachable);
      }
  }

  lemma {:induction false} ResumeAllLoad(w: World, s: State, ids: seq<nat>, clock: nat -> int)
    requires InvWith(s, ids)
    ensures Load(ResumeAll(w, s, ids, clock)) <= Load(s)
    decreases |ids|
  {
    if ids != [] {
      assert ids == [ids[0]] + ids[1..];
      ResumeKeeps(w, s, ids[0], ids[1..], clock(ids[0]));
      ResumeLoad(w, s, ids[0], ids[1..], clock(ids[0]));
      ResumeAllLoad(w, ResumeSend(w, s, ids[0], clock(ids[0])), ids[1..], clock);
    }
  }

  /** A send puts at most 3 * 128 + 64 on the network, however it goes. */
  const SEND_LOAD: int := 448

  lemma StartLoad(w: World, s: State, target: string, data: Bytes, draw: nat, now: int)
    requires Inv(s)
    ensures Load(Start(w, s, target, data, draw, now)) <= Load(s) + SEND_LOAD
  {
    var id: nat := |s.sends|;
    match SelectRoute(w, s, target)
    case Via(iface) =>
      var send := Send(target, data, draw, Some(iface), 0, Waiting);
      var s' := s.(sends := s.sends + [send]);
      SumOne(Budget, s.sends, send);
      NewSendReady(s, send);
      ResumeLoad(w, s', id, [], now);
    case NoRoute =>
      SumOne(Budget, s.sends, Send(target, data, draw, None, 0, Done(Unreachable)));
    case Missing =>
  }

  lemma NewSendReady(s: State, send: Send)
    requires Inv(s) && send.asks == 0 && send.phase.Waiting? && send.iface.Some?
    ensures InvWith(s.(sends := s.sends + [send]), [|s.sends|] + [])
  {
    NewSendKeeps(s, send);
    var id: nat := |s.sends|;
    assert [id] + [] == [id];
  }

  lemma PushLoad(s: State, p: Push)
    ensures Load(s.(outbox := s.outbox + [p])) == Load(s) + Weight(p.packet)
  {
    SumOne(PushWeight, s.outbox, p);
  }

  lemma DispatchLoad(w: World, s: State, p: Packet, arrival: Iface, sorted: seq<PubKey>)
    ensures Load(Dispatch(w, s, p, arrival, sorted)) < Load(s) + Weight(p)
  {
    if IsToMe(s, p.dest) {
      if p.kind.PkAsk? {
        PushLoad(s, Push(arrival, ReplyPacket(w, arrival, ToString(p.src)), Reply));
      } else {
        assert Load(ToMe(w, s, p, arrival, sorted)) == Load(s);
      }
    } else if p.ttl > 1 {
      var selected := SelectRoute(w, s, ToString(p.dest));
      if selected.Via? {
        PushLoad(s, Push(selected.iface, p.(ttl := p.ttl - 1), Forwarded));
      } else {
        assert Load(Dispatch(w, s, p, arrival, sorted)) == Load(s);
      }
    }
  }

  /** A packet weighs strictly more than all that its processing enqueues or allows. */
  lemma ProcessLoad(w: World, s: State, p: Packet, arrival: Iface, now: int, sorted: seq<PubKey>)
    requires Inv(s) && SortChoice(w, s, p, now, sorted)
    ensures Load(Process(w, s, p, arrival, now, sorted)) < Load(s) + Weight(p)
  {
    var src, s1 := ToString(p.src), Learn(s, p, now);
    LearnKeeps(s, p, now);
    DispatchKeeps(w, s1, p, arrival, now, sorted);
    DispatchLoad(w, s1, p, arrival, sorted);
    var s2 := Dispatch(w, s1, p, arrival, sorted);
    var kept, loose := KeptBy(s2.store, src, s2.waiters), Ids(ReleasedBy(s2.store, src, s2.waiters));
    LooseAfterRelease(s2, src);
    ResumeAllLoad(w, s2.(waiters := kept), loose, (_: nat) => now);
  }

  lemma TickLoad(w: World, s: State, now: int, clock: nat -> int)
    requires Inv(s)
    ensures Load(Tick(w, s, now, clock)) <= Load(s)
  {
    LooseAfterExpiry(s, now);
    ResumeAllLoad(w, s.(waiters := Unexpired(s.waiters, now)), Ids(ExpiredOf(s.waiters, now)), clock);
  }

  lemma WriteCompletedLoad(s: State, i: nat)
    requires Inv(s)
    ensures Load(WriteCompleted(s, i)) <= Load(s)
  {
    if i < |s.outbox| && i !in s.called && s.outbox[i].tag.Data? {
      var id := s.outbox[i].tag.id;
      assert CalledOk(s);
      assert id < |s.sends| && s.sends[id].phase.Writing?;
      FinishLoad(s.(called := s.called + {i}), id, Ok);
    }
  }

  // ----- What stays -----

  /** What is enqueued, received or completed stays so. */
  ghost predicate Grows(s: State, s': State) {
    && s.outbox <= s'.outbox && s.recv <= s'.recv && s.completions <= s'.completions
    && |s.sends| <= |s'.sends|
    && (forall i {:trigger s'.sends[i]} :: 0 <= i < |s.sends| ==> SameSend(s.sends[i], s'.sends[i]))
  }

  /** The parameters of a send never change, and one that no longer waits never waits again. */
  predicate SameSend(a: Send, b: Send) {
    && a.target == b.target && a.data == b.data && a.draw == b.draw && a.iface == b.iface
    && (b.phase.Waiting? ==> a.phase.Waiting?)
  }

  lemma GrowsTransitive(s: State, s': State, s'': State)
    requires Grows(s, s') && Grows(s', s'')
    ensures Grows(s, s'')
  {
    forall i | 0 <= i < |s.sends|
      ensures SameSend(s.sends[i], s''.sends[i])
    {
      assert SameSend(s.sends[i], s'.sends[i]);
    }
  }

  lemma ResumeGrows(w: World, s: State, id: nat, now: int)
    requires id < |s.sends| ==> s.sends[id].phase.Waiting?
    ensures Grows(s, ResumeSend(w, s, id, now))
  {
  }

  lemma {:induction false} ResumeAllGrows(w: World, s: State, ids: seq<nat>, clock: nat -> int)
    requires InvWith(s, ids)
    ensures Grows(s, ResumeAll(w, s, ids, clock))
    decreases |ids|
  {
    if ids != [] {
      assert ids == [ids[0]] + ids[1..];
      LooseIsWaiting(s, ids[0], ids[1..]);
      ResumeKeeps(w, s, ids[0], ids[1..], clock(ids[0]));
      ResumeGrows(w, s, ids[0], clock(ids[0]));
      var s' := ResumeSend(w, s, ids[0], clock(ids[0]));
      ResumeAllGrows(w, s', ids[1..], clock);
      GrowsTransitive(s, s', ResumeAll(w, s, ids, clock));
    }
  }

  /** Dispatching a packet adds to the outbox or the receive buffer; it does not touch the sends. */
  lemma DispatchGrows(w: World, s: State, p: Packet, arrival: Iface, sorted: seq<PubKey>)
    ensures var s' := Dispatch(w, s, p, arrival, sorted);
            && s.outbox <= s'.outbox && s.recv <= s'.recv
            && s'.completions == s.completions && s'.sends == s.sends && s'.waiters == s.waiters
  {
  }

  lemma PostProcessGrows(w: World, s: State, src: string, now: int)
    requires InvBut(s, src)
    ensures Grows(s, PostProcess(w, s, src, now))
  {
    var s' := s.(waiters := KeptBy(s.store, src, s.waiters));
    LooseAfterRelease(s, src);
    ResumeAllGrows(w, s', Ids(ReleasedBy(s.store, src, s.waiters)), (_: nat) => now);
    assert Grows(s, s');
    GrowsTransitive(s, s', PostProcess(w, s, src, now));
  }

  /** The state that post-processing starts from. */
  function Dispatched(w: World, s: State, p: Packet, arrival: Iface, now: int, sorted: seq<PubKey>): State {
    Dispatch(w, Learn(s, p, now), p, arrival, sorted)
  }

  lemma DispatchedKeeps(w: World, s: State, p: Packet, arrival: Iface, now: int, sorted: seq<PubKey>)
    requires Inv(s) && SortChoice(w, s, p, now, sorted)
    ensures InvBut(Dispatched(w, s, p, arrival, now, sorted), ToString(p.src))
  {
    LearnKeeps(s, p, now);
    DispatchKeeps(w, Learn(s, p, now), p, arrival, now, sorted);
  }

  lemma DispatchedGrows(w: World, s: State, p: Packet, arrival: Iface, now: int, sorted: seq<PubKey>)
    ensures var s' := Dispatched(w, s, p, arrival, now, sorted);
            Grows(s, s') && s'.waiters == s.waiters && s'.sends == s.sends
  {
    DispatchGrows(w, Learn(s, p, now), p, arrival, sorted);
  }

  lemma ProcessGrows(w: World, s: State, p: Packet, arrival: Iface, now: int, sorted: seq<PubKey>)
    requires Inv(s) && SortChoice(w, s, p, now, sorted)
    ensures Grows(s, Process(w, s, p, arrival, now, sorted))
  {
    DispatchedKeeps(w, s, p, arrival, now, sorted);
    DispatchedGrows(w, s, p, arrival, now, sorted);
    PostProcessGrows(w, Dispatched(w, s, p, arrival, now, sorted), ToString(p.src), now);
    GrowsTransitive(s, Dispatched(w, s, p, arrival, now, sorted), Process(w, s, p, arrival, now, sorted));
  }

  lemma TickGrows(w: World, s: State, now: int, clock: nat -> int)
    requires Inv(s)
    ensures Grows(s, Tick(w, s, now, clock))
  {
    var s' := s.(waiters := Unexpired(s.waiters, now));
    LooseAfterExpiry(s, now);
    ResumeAllGrows(w, s', Ids(ExpiredOf(s.waiters, now)), clock);
    assert Grows(s, s');
    GrowsTransitive(s, s', Tick(w, s, now, clock));
  }

  lemma StartGrows(w: World, s: State, target: string, data: Bytes, draw: nat, now: int)
    requires Inv(s)
    ensures Grows(s, Start(w, s, target, data, draw, now))
  {
    match SelectRoute(w, s, target)
    case Via(iface) =>
      var s' := s.(sends := s.sends + [Send(target, data, draw, Some(iface), 0, Waiting)]);
      assert Grows(s, s');
      ResumeGrows(w, s', |s.sends|, now);
      GrowsTransitive(s, s', Start(w, s, target, data, draw, now));
    case _ =>
  }

  lemma WriteCompletedGrows(s: State, i: nat)
    ensures Grows(s, WriteCompleted(s, i))
  {
  }

  /** Interfaces and routes are changed by administration alone. */
  predicate SameTables(s: State, s': State) {
    s'.ifs == s.ifs && s'.routes == s.routes
  }

  /** Interfaces, routes, and the completions called by the writers are not the protocol's business. */
  predicate SameOutside(s: State, s': State) {
    SameTables(s, s') && s'.called == s.called
  }

  lemma {:induction false} ResumeAllKeepsOutside(w: World, s: State, ids: seq<nat>, clock: nat -> int)
    ensures SameOutside(s, ResumeAll(w, s, ids, clock))
    decreases |ids|
  {
    if ids != [] {
      ResumeAllKeepsOutside(w, ResumeSend(w, s, ids[0], clock(ids[0])), ids[1..], clock);
    }
  }

  lemma StartKeepsOutside(w: World, s: State, target: string, data: Bytes, draw: nat, now: int)
    ensures SameOutside(s, Start(w, s, target, data, draw, now))
  {
  }

  lemma TickKeepsOutside(w: World, s: State, now: int, clock: nat -> int)
    ensures SameOutside(s, Tick(w, s, now, clock))
  {
    ResumeAllKeepsOutside(w, s.(waiters := Unexpired(s.waiters, now)), Ids(ExpiredOf(s.waiters, now)), clock);
  }

  lemma DispatchKeepsOutside(w: World, s: State, p: Packet, arrival: Iface, sorted: seq<PubKey>)
    ensures SameOutside(s, Dispatch(w, s, p, arrival, sorted))
  {
  }

  lemma ProcessKeepsOutside(w: World, s: State, p: Packet, arrival: Iface, now: int, sorted: seq<PubKey>)
    ensures SameOutside(s, Process(w, s, p, arrival, now, sorted))
  {
    var src, s2 := ToString(p.src), Dispatched(w, s, p, arrival, now, sorted);
    DispatchKeepsOutside(w, Learn(s, p, now), p, arrival, sorted);
    var released := Ids(ReleasedBy(s2.store, src, s2.waiters));
    ResumeAllKeepsOutside(w, s2.(waiters := KeptBy(s2.store, src, s2.waiters)), released, (_: nat) => now);
  }

  // ----- Who is released -----

  /** Sends whose key is there are resumed without going back onto the list. */
  lemma {:induction false} KeyedResumesLeave(w: World, s: State, ids: seq<nat>, clock: nat -> int)
    requires InvWith(s, ids)
    requires forall id :: id in ids && id < |s.sends| ==> s.sends[id].target in s.store
    ensures ResumeAll(w, s, ids, clock).waiters == s.waiters
    ensures ResumeAll(w, s, ids, clock).recv == s.recv
    ensures ResumeAll(w, s, ids, clock).completions == s.completions
    ensures ResumeAll(w, s, ids, clock).faulted == s.faulted
    decreases |ids|
  {
    if ids != [] {
      assert ids == [ids[0]] + ids[1..];
      LooseIsWaiting(s, ids[0], ids[1..]);
      var s' := ResumeSend(w, s, ids[0], clock(ids[0]));
      ResumeKeeps(w, s, ids[0], ids[1..], clock(ids[0]));
      KeyedResumesLeave(w, s', ids[1..], clock);
    }
  }

  lemma {:induction false} IdsOfWaiters(waiters: seq<Waiter>, id: nat)
    requires id in Ids(waiters)
    ensures exists wt :: wt in waiters && wt.id == id
    decreases |waiters|
  {
    if waiters[0].id == id {
      assert waiters[0] in waiters;
    } else {
      IdsOfWaiters(waiters[1..], id);
      var wt :| wt in waiters[1..] && wt.id == id;
      assert wt in waiters;
    }
  }

  /** A send whose key has come is in the write, its data packet enqueued. */
  lemma {:induction false} KeyedResumesTransmit(w: World, s: State, ids: seq<nat>, clock: nat -> int)
    requires InvWith(s, ids)
    requires forall id :: id in ids && id < |s.sends| ==> s.sends[id].target in s.store
    ensures var s' := ResumeAll(w, s, ids, clock);
            |s'.sends| == |s.sends| && forall i {:trigger s'.sends[i]} :: 0 <= i < |s.sends| ==>
              s'.sends[i] == if i in ids then s.sends[i].(phase := Writing) else s.sends[i]
    decreases |ids|
  {
    if ids != [] {
      assert ids == [ids[0]] + ids[1..];
      LooseIsWaiting(s, ids[0], ids[1..]);
      TakeOut(Ids(s.waiters), ids[0], ids[1..]);
      ResumeKeeps(w, s, ids[0], ids[1..], clock(ids[0]));
      KeyedResumesTransmit(w, ResumeSend(w, s, ids[0], clock(ids[0])), ids[1..], clock);
    }
  }

  /** The push of a send's data packet, given the key. */
  function DataPush(w: World, send: Send, key: Modulus, id: nat): Push
    requires send.iface.Some?
  {
    Push(send.iface.value, DataPacket(w, send.iface.value, send.target, key, send.draw, send.data), Data(id))
  }

  lemma KeyedResume(w: World, s: State, id: nat, rest: seq<nat>, now: int)
    requires InvWith(s, [id] + rest)
    requires id < |s.sends| ==> s.sends[id].target in s.store
    ensures id !in rest && id < |s.sends| && s.sends[id].iface.Some? && Find(s.store, s.sends[id].target).Some?
    ensures var s' := ResumeSend(w, s, id, now);
            && s'.sends == s.sends[id := s.sends[id].(phase := Writing)]
            && s'.outbox == s.outbox + [DataPush(w, s.sends[id], Find(s.store, s.sends[id].target).value, id)]
  {
    LooseIsWaiting(s, id, rest);
    TakeOut(Ids(s.waiters), id, rest);
  }

  lemma InTail<T>(p: T, a: seq<T>, b: seq<T>, all: seq<T>)
    requires a <= b <= all && p in all[|b|..]
    ensures p in all[|a|..]
  {
    assert all[|a|..] == b[|a|..] + all[|b|..];
  }

  lemma FirstOfTail<T>(p: T, a: seq<T>, all: seq<T>)
    requires a + [p] <= all
    ensures p in all[|a|..]
  {
    assert all[|a|..][0] == p;
  }

  /** Each such send has enqueued its data, sealed with the key that is stored for its target. */
  lemma {:induction false} KeyedResumesEnqueue(w: World, s: State, ids: seq<nat>, clock: nat -> int, id: nat)
    requires InvWith(s, ids) && id in ids
    requires forall i :: i in ids && i < |s.sends| ==> s.sends[i].target in s.store
    ensures id < |s.sends| && s.sends[id].iface.Some? && Find(s.store, s.sends[id].target).Some?
    ensures s.outbox <= ResumeAll(w, s, ids, clock).outbox
    ensures DataPush(w, s.sends[id], Find(s.store, s.sends[id].target).value, id)
            in ResumeAll(w, s, ids, clock).outbox[|s.outbox|..]
    decreases |ids|
  {
    assert ids == [ids[0]] + ids[1..];
    KeyedResume(w, s, ids[0], ids[1..], clock(ids[0]));
    ResumeKeeps(w, s, ids[0], ids[1..], clock(ids[0]));
    var s', all := ResumeSend(w, s, ids[0], clock(ids[0])), ResumeAll(w, s, ids, clock).outbox;
    if id == ids[0] {
      ResumeAllGrows(w, s', ids[1..], clock);
      FirstOfTail(DataPush(w, s.sends[id], Find(s.store, s.sends[id].target).value, id), s.outbox, all);
    } else {
      KeyedResumesEnqueue(w, s', ids[1..], clock, id);
      InTail(DataPush(w, s.sends[id], Find(s.store, s.sends[id].target).value, id), s.outbox, s'.outbox, all);
    }
  }

  /** How often a send may still be released from a wait. */
  function PatienceOf(send: Send): nat {
    if send.phase.Waiting? && send.asks <= MAX_ASKS then MAX_ASKS - send.asks + 1 else 0
  }

  /** A send whose wait has timed out asks again, or gives up after its last request. */
  function Retried(send: Send): Send {
    if send.asks < MAX_ASKS then send.(asks := send.asks + 1) else send.(phase := Done(Unreachable))
  }

  lemma KeylessResumeRetries(w: World, s: State, id: nat, rest: seq<nat>, now: int)
    requires InvWith(s, [id] + rest)
    requires id < |s.sends| ==> s.sends[id].target !in s.store
    ensures id !in rest && id < |s.sends|
    ensures ResumeSend(w, s, id, now).sends == s.sends[id := Retried(s.sends[id])]
  {
    LooseIsWaiting(s, id, rest);
    TakeOut(Ids(s.waiters), id, rest);
  }

  lemma {:induction false} KeylessResumesRetry(w: World, s: State, ids: seq<nat>, clock: nat -> int)
    requires InvWith(s, ids)
    requires forall id :: id in ids && id < |s.sends| ==> s.sends[id].target !in s.store
    ensures var s' := ResumeAll(w, s, ids, clock);
            |s'.sends| == |s.sends| && forall i {:trigger s'.sends[i]} :: 0 <= i < |s.sends| ==>
              s'.sends[i] == if i in ids then Retried(s.sends[i]) else s.sends[i]
    decreases |ids|
  {
    if ids != [] {
      assert ids == [ids[0]] + ids[1..];
      KeylessResumeRetries(w, s, ids[0], ids[1..], clock(ids[0]));
      ResumeKeeps(w, s, ids[0], ids[1..], clock(ids[0]));
      var s' := ResumeSend(w, s, ids[0], clock(ids[0]));
      assert forall i {:trigger s'.sends[i]} :: 0 <= i < |s.sends| ==> s'.sends[i].target == s.sends[i].target;
      KeylessResumesRetry(w, s', ids[1..], clock);
    }
  }

  /** Every send whose waiter a packet releases is in the write when the step ends, and no other changes. */
  lemma ReleasedSendsTransmit(w: World, s: State, src: string, now: int)
    requires InvBut(s, src)
    ensures var s' := PostProcess(w, s, src, now);
            |s'.sends| == |s.sends| && forall i {:trigger s'.sends[i]} :: 0 <= i < |s.sends| ==>
              s'.sends[i] ==
              if i in Ids(ReleasedBy(s.store, src, s.waiters)) then s.sends[i].(phase := Writing) else s.sends[i]
  {
    var released := ReleasedBy(s.store, src, s.waiters);
    var s' := s.(waiters := KeptBy(s.store, src, s.waiters));
    LooseAfterRelease(s, src);
    forall id | id in Ids(released) && id < |s'.sends|
      ensures s'.sends[id].target in s'.store
    {
      IdsOfWaiters(released, id);
    }
    KeyedResumesTransmit(w, s', Ids(released), (_: nat) => now);
  }

  lemma ReleasedSendsEnqueue(w: World, s: State, src: string, now: int, id: nat)
    requires InvBut(s, src) && id in Ids(ReleasedBy(s.store, src, s.waiters))
    ensures id < |s.sends| && s.sends[id].iface.Some? && Find(s.store, s.sends[id].target).Some?
    ensures s.outbox <= PostProcess(w, s, src, now).outbox
    ensures DataPush(w, s.sends[id], Find(s.store, s.sends[id].target).value, id)
            in PostProcess(w, s, src, now).outbox[|s.outbox|..]
  {
    var released := ReleasedBy(s.store, src, s.waiters);
    var s' := s.(waiters := KeptBy(s.store, src, s.waiters));
    LooseAfterRelease(s, src);
    forall i | i in Ids(released) && i < |s'.sends|
      ensures s'.sends[i].target in s'.store
    {
      IdsOfWaiters(released, i);
    }
    KeyedResumesEnqueue(w, s', Ids(released), (_: nat) => now, id);
  }

  /** A tick makes exactly the sends of the expired waiters ask again or give up. */
  lemma ExpiredSendsRetry(w: World, s: State, now: int, clock: nat -> int)
    requires Inv(s)
    ensures var s' := Tick(w, s, now, clock);
            |s'.sends| == |s.sends| && forall i {:trigger s'.sends[i]} :: 0 <= i < |s.sends| ==>
              s'.sends[i] == if i in Ids(ExpiredOf(s.waiters, now)) then Retried(s.sends[i]) else s.sends[i]
  {
    var expired := ExpiredOf(s.waiters, now);
    var s1 := s.(waiters := Unexpired(s.waiters, now));
    LooseAfterExpiry(s, now);
    forall id | id in Ids(expired) && id < |s1.sends|
      ensures s1.sends[id].target !in s1.store
    {
      IdsOfWaiters(expired, id);
    }
    KeylessResumesRetry(w, s1, Ids(expired), clock);
  }

  /**
   * A waiter leaves the list in the step in which its key arrives, and in no other step in which a
   * packet is processed: afterwards the list is what it was, in order, less those whose key is there.
   */
  lemma ReleasedWhenKeyArrives(w: World, s: State, p: Packet, arrival: Iface, now: int, sorted: seq<PubKey>)
    requires Inv(s) && SortChoice(w, s, p, now, sorted)
    ensures var s' := Process(w, s, p, arrival, now, sorted);
            && s'.waiters == KeptBy(s'.store, ToString(p.src), s.waiters)
            && (forall wt :: wt in s.waiters ==> (wt in s'.waiters <==> wt.target !in s'.store))
  {
    DispatchedKeeps(w, s, p, arrival, now, sorted);
    DispatchedGrows(w, s, p, arrival, now, sorted);
    ReleaseExactly(w, Dispatched(w, s, p, arrival, now, sorted), ToString(p.src), now);
  }

  lemma ReleaseExactly(w: World, s: State, src: string, now: int)
    requires InvBut(s, src)
    ensures var s' := PostProcess(w, s, src, now);
            && s'.waiters == KeptBy(s'.store, src, s.waiters)
            && (forall wt :: wt in s.waiters ==> (wt in s'.waiters <==> wt.target !in s'.store))
  {
    ReleaseLeaves(w, s, src, now);
  }

  lemma ReleaseLeaves(w: World, s: State, src: string, now: int)
    requires InvBut(s, src)
    ensures var s' := PostProcess(w, s, src, now);
            && s'.waiters == KeptBy(s.store, src, s.waiters) && s'.store == s.store && s'.recv == s.recv
            && s'.completions == s.completions && s'.faulted == s.faulted
            && CountTag(s'.outbox, Forwarded) == CountTag(s.outbox, Forwarded)
            && CountTag(s'.outbox, Reply) == CountTag(s.outbox, Reply)
  {
    var released := ReleasedBy(s.store, src, s.waiters);
    var s' := s.(waiters := KeptBy(s.store, src, s.waiters));
    LooseAfterRelease(s, src);
    forall id | id in Ids(released) && id < |s'.sends|
      ensures s'.sends[id].target in s'.store
    {
      IdsOfWaiters(released, id);
    }
    ResumeAllKeeps(w, s', Ids(released), (_: nat) => now);
    KeyedResumesLeave(w, s', Ids(released), (_: nat) => now);
    ResumesForwardNothing(w, s', Ids(released), (_: nat) => now);
  }

  /** The waiters that the timed-out sends put on the list when they ask again. */
  function Renewed(s: State, ids: seq<nat>, clock: nat -> int): seq<Waiter> {
    if ids == [] then []
    else if ids[0] < |s.sends| && s.sends[ids[0]].asks < MAX_ASKS
    then [Waiter(clock(ids[0]) + WAIT_FOR_KEY, s.sends[ids[0]].target, ids[0])] + Renewed(s, ids[1..], clock)
    else Renewed(s, ids[1..], clock)
  }

  lemma {:induction false} RenewedFrame(s: State, s': State, ids: seq<nat>, clock: nat -> int)
    requires |s'.sends| == |s.sends| && forall id :: id in ids && id < |s.sends| ==> s'.sends[id] == s.sends[id]
    ensures Renewed(s', ids, clock) == Renewed(s, ids, clock)
    decreases |ids|
  {
    if ids != [] {
      RenewedFrame(s, s', ids[1..], clock);
    }
  }

  lemma KeylessResume(w: World, s: State, id: nat, rest: seq<nat>, now: int)
    requires InvWith(s, [id] + rest)
    requires id < |s.sends| ==> s.sends[id].target !in s.store
    ensures id !in rest && id < |s.sends|
    ensures var s' := ResumeSend(w, s, id, now);
            && s'.store == s.store && |s'.sends| == |s.sends|
            && (forall i {:trigger s'.sends[i]} :: 0 <= i < |s.sends| ==> s'.sends[i].target == s.sends[i].target)
            && (forall i {:trigger s'.sends[i]} :: 0 <= i < |s.sends| && i != id ==> s'.sends[i] == s.sends[i])
            && s'.waiters ==
               if s.sends[id].asks < MAX_ASKS
               then s.waiters + [Waiter(now + WAIT_FOR_KEY, s.sends[id].target, id)] else s.waiters
  {
    LooseIsWaiting(s, id, rest);
    TakeOut(Ids(s.waiters), id, rest);
  }

  /** One more send resumed in front: its new waiter comes before those of the rest. */
  lemma RenewedFirst(s: State, s': State, id: nat, rest: seq<nat>, clock: nat -> int, after: seq<Waiter>)
    requires id < |s.sends| == |s'.sends| && id !in rest
    requires forall i {:trigger s'.sends[i]} :: 0 <= i < |s.sends| && i != id ==> s'.sends[i] == s.sends[i]
    requires s'.waiters == if s.sends[id].asks < MAX_ASKS
                           then s.waiters + [Waiter(clock(id) + WAIT_FOR_KEY, s.sends[id].target, id)] else s.waiters
    requires after == s'.waiters + Renewed(s', rest, clock)
    ensures after == s.waiters + Renewed(s, [id] + rest, clock)
  {
    RenewedFrame(s, s', rest, clock);
    assert ([id] + rest)[1..] == rest;
  }

  lemma {:induction false} KeylessResumesRenew(w: World, s: State, ids: seq<nat>, clock: nat -> int)
    requires InvWith(s, ids)
    requires forall id :: id in ids && id < |s.sends| ==> s.sends[id].target !in s.store
    ensures ResumeAll(w, s, ids, clock).waiters == s.waiters + Renewed(s, ids, clock)
    decreases |ids|
  {
    if ids != [] {
      var id, rest := ids[0], ids[1..];
      assert ids == [id] + rest;
      var s' := ResumeSend(w, s, id, clock(id));
      KeylessResume(w, s, id, rest, clock(id));
      ResumeKeeps(w, s, id, rest, clock(id));
      KeylessResumesRenew(w, s', rest, clock);
      RenewedFirst(s, s', id, rest, clock, ResumeAll(w, s', rest, clock).waiters);
    }
  }

  /** The clock has not stepped back by more than 8 seconds since it showed `now`. */
  ghost predicate Forward(now: int, clock: nat -> int) {
    forall id: nat :: clock(id) + WAIT_FOR_KEY >= now
  }

  lemma {:induction false} RenewedAreLater(s: State, ids: seq<nat>, clock: nat -> int, now: int)
    requires Forward(now, clock)
    ensures forall wt :: wt in Renewed(s, ids, clock) ==> wt.deadline >= now && wt.id in ids
    decreases |ids|
  {
    if ids != [] {
      RenewedAreLater(s, ids[1..], clock, now);
    }
  }

  lemma TickRenews(w: World, s: State, now: int, clock: nat -> int)
    requires Inv(s)
    ensures Tick(w, s, now, clock).waiters ==
            Unexpired(s.waiters, now) + Renewed(s, Ids(ExpiredOf(s.waiters, now)), clock)
  {
    var expired := ExpiredOf(s.waiters, now);
    var s1 := s.(waiters := Unexpired(s.waiters, now));
    LooseAfterExpiry(s, now);
    forall id | id in Ids(expired) && id < |s1.sends|
      ensures s1.sends[id].target !in s1.store
    {
      IdsOfWaiters(expired, id);
    }
    KeylessResumesRenew(w, s1, Ids(expired), clock);
    RenewedFrame(s, s1, Ids(expired), clock);
  }

  /**
   * The timer tick, with senders that register anew while it walks the list: the survivors keep
   * their order, the new waiters follow them in the order of release, nobody on the list has
   * expired, and every waiter released had waited for a key that is still missing.
   */
  lemma TickReleasesExpired(w: World, s: State, now: int, clock: nat -> int)
    requires Inv(s)
    ensures var s' := Tick(w, s, now, clock);
            && s'.waiters == Unexpired(s.waiters, now) + Renewed(s, Ids(ExpiredOf(s.waiters, now)), clock)
            && (forall wt :: wt in s.waiters && wt.deadline < now ==> wt.target !in s.store)
            && (Forward(now, clock) ==> forall wt :: wt in s'.waiters ==> wt.deadline >= now)
  {
    TickRenews(w, s, now, clock);
    if Forward(now, clock) {
      RenewedAreLater(s, Ids(ExpiredOf(s.waiters, now)), clock, now);
    }
  }

  // ----- One packet, one fate -----

  /** Between two states, `n` more packets have been forwarded, answered or received altogether. */
  ghost predicate Fates(s: State, s': State, n: nat) {
    var forwarded := CountTag(s'.outbox, Forwarded) - CountTag(s.outbox, Forwarded);
    var answered := CountTag(s'.outbox, Reply) - CountTag(s.outbox, Reply);
    var received := |s'.recv| - |s.recv|;
    forwarded >= 0 && answered >= 0 && received >= 0 && forwarded + answered + received == n
  }

  /**
   * Processing a packet forwards it once, or answers it once, or hands it to the receive buffer
   * once, or does none of these; it never does two of them, or one twice.
   */
  lemma OneFate(w: World, s: State, p: Packet, arrival: Iface, now: int, sorted: seq<PubKey>)
    requires Inv(s) && SortChoice(w, s, p, now, sorted)
    ensures var s' := Process(w, s, p, arrival, now, sorted);
            Fates(s, s', 0) || Fates(s, s', 1)
  {
    var src, s2 := ToString(p.src), Dispatched(w, s, p, arrival, now, sorted);
    DispatchedKeeps(w, s, p, arrival, now, sorted);
    DispatchFate(w, Learn(s, p, now), p, arrival, sorted);
    ReleaseLeaves(w, s2, src, now);
    assert Process(w, s, p, arrival, now, sorted) == PostProcess(w, s2, src, now);
  }

  lemma DispatchFate(w: World, s: State, p: Packet, arrival: Iface, sorted: seq<PubKey>)
    ensures var s' := Dispatch(w, s, p, arrival, sorted);
            Fates(s, s', 0) || Fates(s, s', 1)
  {
    if IsToMe(s, p.dest) {
      if p.kind.PkAsk? {
        CountBoth(s.outbox, Push(arrival, ReplyPacket(w, arrival, ToString(p.src)), Reply));
      }
    } else if p.ttl > 1 {
      var selected := SelectRoute(w, s, ToString(p.dest));
      if selected.Via? {
        CountBoth(s.outbox, Push(selected.iface, p.(ttl := p.ttl - 1), Forwarded));
      }
    }
  }

  lemma CountBoth(outbox: seq<Push>, p: Push)
    ensures CountTag(outbox + [p], Forwarded) == CountTag(outbox, Forwarded) + if p.tag == Forwarded then 1 else 0
    ensures CountTag(outbox + [p], Reply) == CountTag(outbox, Reply) + if p.tag == Reply then 1 else 0
  {
    CountAppend(outbox, p, Forwarded);
    CountAppend(outbox, p, Reply);
  }

  lemma ResumeForwardsNothing(w: World, s: State, id: nat, now: int)
    ensures Fates(s, ResumeSend(w, s, id, now), 0)
    ensures ResumeSend(w, s, id, now).recv == s.recv
  {
    var s' := ResumeSend(w, s, id, now);
    if s'.outbox != s.outbox {
      CountBoth(s.outbox, s'.outbox[|s.outbox|]);
    }
  }

  /** Steps other than processing forward nothing, answer nothing and receive nothing. */
  lemma {:induction false} ResumesForwardNothing(w: World, s: State, ids: seq<nat>, clock: nat -> int)
    ensures Fates(s, ResumeAll(w, s, ids, clock), 0)
    ensures ResumeAll(w, s, ids, clock).recv == s.recv
    decreases |ids|
  {
    if ids != [] {
      ResumeForwardsNothing(w, s, ids[0], clock(ids[0]));
      ResumesForwardNothing(w, ResumeSend(w, s, ids[0], clock(ids[0])), ids[1..], clock);
    }
  }

  lemma WriteCompletedForwardsNothing(s: State, i: nat)
    ensures Fates(s, WriteCompleted(s, i), 0)
  {
  }

  lemma StartForwardsNothing(w: World, s: State, target: string, data: Bytes, draw: nat, now: int)
    ensures Fates(s, Start(w, s, target, data, draw, now), 0)
    ensures Start(w, s, target, data, draw, now).recv == s.recv
  {
    match SelectRoute(w, s, target)
    case Via(iface) =>
      var s' := s.(sends := s.sends + [Send(target, data, draw, Some(iface), 0, Waiting)]);
      ResumeForwardsNothing(w, s', |s.sends|, now);
    case _ =>
  }

  // ----- Names -----

  /**
   * Keys are kept under printed addresses, so a send to a raw name without `@` never finds one: no
   * packet releases it, it never enqueues a data packet, and if it ends, it ends unreachable, either
   * for want of a route or after its last request.
   */
  lemma RawTargetIsUnreachable(s: State, id: nat, src: string)
    requires Inv(s) && id < |s.sends| && '@' !in s.sends[id].target
    ensures Find(s.store, s.sends[id].target).None?
    ensures forall wt :: wt in s.waiters && wt.id == id ==> !Released(s.store, src, wt)
    ensures CountTag(s.outbox, Data(id)) == 0
    ensures s.sends[id].phase.Done? ==>
              s.sends[id].phase == Done(Unreachable) && (s.sends[id].iface.None? || s.sends[id].asks == 3)
  {
    assert SendOk(s, id);
    var phase := s.sends[id].phase;
    assert phase.Done? ==> phase == Done(if phase.code.Ok? then Ok else Unreachable);
  }

  /** A pkreply goes back to exactly the requester's source address if that is well formed. */
  lemma ReplyReachesRequester(w: World, s: State, p: Packet, arrival: Iface, sorted: seq<PubKey>)
    requires p.kind.PkAsk? && IsToMe(s, p.dest)
    ensures var s' := Dispatch(w, s, p, arrival, sorted);
            && |s'.outbox| == |s.outbox| + 1
            && var reply := s'.outbox[|s.outbox|].packet;
            && reply.kind.PkReply? && reply.ttl == 64 && reply.src == arrival.addr
            && (reply.dest == p.src <==> WellFormed(p.src))
  {
    RoundTrip(p.src);
  }
}
