/**
 * What every step of the kernel keeps, whatever packets arrive and however steps interleave:
 * routes name live interfaces, nobody waits for a key that is there, and every send keeps to its
 * budget of requests, packets and handler calls.
 */
module KernelInvariant {
  import opened Std
  import opened Address
  import opened Cipher
  import opened KeyStore
  import opened Protocol
  import RouteTable

  // ----- The invariant -----

  ghost predicate RoutesOk(s: State) {
    RouteTable.Sorted(s.routes) && forall r :: r in s.routes ==> r.ifname in s.ifs
  }

  /** Entries are non-empty and sorted, and their names are printed addresses. */
  ghost predicate KeysOk(store: Store) {
    StoreOk(store) && forall a :: a in store ==> '@' in a
  }

  /** No waiter coexists with a key for its target. */
  ghost predicate NoneWaitsInVain(s: State) {
    forall wt :: wt in s.waiters ==> wt.target !in s.store
  }

  /**
   * The sends that wait are exactly those of the waiters plus `loose`, the sends taken off the list
   * in the current step and not yet resumed; each is there once, for its own target.
   */
  ghost predicate WaitersOk(s: State, loose: seq<nat>) {
    && Distinct(Ids(s.waiters) + loose)
    && (forall id: nat :: id in Ids(s.waiters) + loose <==> id < |s.sends| && s.sends[id].phase.Waiting?)
    && (forall wt :: wt in s.waiters ==> wt.id < |s.sends| && s.sends[wt.id].target == wt.target)
  }

  function CountTag(outbox: seq<Push>, tag: Tag): nat {
    if outbox == [] then 0 else (if outbox[0].tag == tag then 1 else 0) + CountTag(outbox[1..], tag)
  }

  /** Whether a send in this phase has enqueued its data packet. */
  predicate Enqueued(phase: Phase) {
    phase.Writing? || phase == Done(Ok)
  }

  /**
   * At most three requests, at most one data packet, and neither without a selected route; no data
   * packet for a raw name, under which no key is ever found.
   */
  ghost predicate SendOk(s: State, id: nat)
    requires id < |s.sends|
  {
    var send := s.sends[id];
    && CountTag(s.outbox, Ask(id)) == send.asks <= MAX_ASKS
    && CountTag(s.outbox, Data(id)) == (if Enqueued(send.phase) then 1 else 0)
    && (send.iface.None? ==> send.phase == Done(Unreachable) && send.asks == 0)
    && (send.phase == Done(Unreachable) && send.iface.Some? ==> send.asks == MAX_ASKS)
    && (Enqueued(send.phase) ==> '@' in send.target)
  }

  /** The send of a data packet is in the write until the writer calls its completion, and then done. */
  ghost predicate CalledOk(s: State) {
    && (forall i :: i in s.called ==> i < |s.outbox|)
    && (forall i: nat {:trigger s.outbox[i]} :: i < |s.outbox| && s.outbox[i].tag.Data? ==>
          && s.outbox[i].tag.id < |s.sends|
          && s.sends[s.outbox[i].tag.id].phase == if i in s.called then Done(Ok) else Writing)
  }

  ghost predicate SendsOk(s: State) {
    && (forall id: nat {:trigger s.sends[id]} :: id < |s.sends| ==> SendOk(s, id))
    && (forall id: nat {:trigger CountTag(s.outbox, Ask(id))} :: id >= |s.sends| ==> CountTag(s.outbox, Ask(id)) == 0)
    && (forall id: nat {:trigger CountTag(s.outbox, Data(id))} :: id >= |s.sends| ==> CountTag(s.outbox, Data(id)) == 0)
    && CalledOk(s)
  }

  function Called(completions: seq<Completion>): (ids: seq<nat>) {
    if completions == [] then [] else [completions[0].id] + Called(completions[1..])
  }

  /** A handler has been called exactly if its send is done, once, with the code the send ended in. */
  ghost predicate HandlersOk(s: State) {
    && Distinct(Called(s.completions))
    && (forall id: nat :: id in Called(s.completions) <==> id < |s.sends| && s.sends[id].phase.Done?)
    && (forall c :: c in s.completions ==> c.id < |s.sends| && s.sends[c.id].phase == Done(c.code))
  }

  ghost predicate InvWith(s: State, loose: seq<nat>) {
    && RoutesOk(s) && KeysOk(s.store) && NoneWaitsInVain(s)
    && WaitersOk(s, loose) && SendsOk(s) && HandlersOk(s)
  }

  ghost predicate Inv(s: State) {
    InvWith(s, [])
  }

  // ----- Lists -----

  lemma {:induction false} CountTagAppend(a: seq<Push>, b: seq<Push>, tag: Tag)
    ensures CountTag(a + b, tag) == CountTag(a, tag) + CountTag(b, tag)
    decreases |a|
  {
    if a == [] {
      assert a + b == b;
    } else {
      assert (a + b)[1..] == a[1..] + b;
      CountTagAppend(a[1..], b, tag);
    }
  }

  lemma CountAppend(outbox: seq<Push>, p: Push, tag: Tag)
    ensures CountTag(outbox + [p], tag) == CountTag(outbox, tag) + if p.tag == tag then 1 else 0
  {
    CountTagAppend(outbox, [p], tag);
    assert [p][1..] == [];
  }

  lemma {:induction false} IdsAppend(a: seq<Waiter>, b: seq<Waiter>)
    ensures Ids(a + b) == Ids(a) + Ids(b)
    decreases |a|
  {
    if a == [] {
      assert a + b == b;
    } else {
      assert (a + b)[1..] == a[1..] + b;
      IdsAppend(a[1..], b);
    }
  }

  lemma {:induction false} CalledAppend(completions: seq<Completion>, c: Completion)
    ensures Called(completions + [c]) == Called(completions) + [c.id]
    decreases |completions|
  {
    if completions == [] {
      assert [c][1..] == [];
    } else {
      assert (completions + [c])[1..] == completions[1..] + [c];
      CalledAppend(completions[1..], c);
    }
  }

  lemma {:induction false} IdInIds(waiters: seq<Waiter>, wt: Waiter)
    requires wt in waiters
    ensures wt.id in Ids(waiters)
    decreases |waiters|
  {
    if wt != waiters[0] {
      IdInIds(waiters[1..], wt);
    }
  }

  lemma CountAppendAll(outbox: seq<Push>, p: Push)
    ensures forall tag {:trigger CountTag(outbox + [p], tag)} ::
              CountTag(outbox + [p], tag) == CountTag(outbox, tag) + if p.tag == tag then 1 else 0
  {
    forall tag
      ensures CountTag(outbox + [p], tag) == CountTag(outbox, tag) + if p.tag == tag then 1 else 0
    {
      CountAppend(outbox, p, tag);
    }
  }

  /** `SendsOk` depends on nothing but the sends, the outbox and the completions of its packets. */
  lemma SendsFrame(s: State, s': State)
    requires SendsOk(s) && s'.sends == s.sends && s'.outbox == s.outbox && s'.called == s.called
    ensures SendsOk(s')
  {
    forall id: nat | id < |s'.sends|
      ensures SendOk(s', id)
    {
      assert SendOk(s, id);
    }
    CalledFrame(s, s');
  }

  /** Waiting sends may move on, packets may be enqueued; a new data packet is of a send in the write. */
  lemma CalledFrame(s: State, s': State)
    requires CalledOk(s) && s'.called == s.called && s.outbox <= s'.outbox && |s.sends| <= |s'.sends|
    requires forall id: nat {:trigger s'.sends[id]} ::
               id < |s.sends| && !s.sends[id].phase.Waiting? ==> s'.sends[id].phase == s.sends[id].phase
    requires forall i: nat {:trigger s'.outbox[i]} :: |s.outbox| <= i < |s'.outbox| && s'.outbox[i].tag.Data? ==>
               s'.outbox[i].tag.id < |s'.sends| && s'.sends[s'.outbox[i].tag.id].phase.Writing?
    ensures CalledOk(s')
  {
    forall i: nat | i < |s'.outbox| && s'.outbox[i].tag.Data?
      ensures s'.outbox[i].tag.id < |s'.sends|
      ensures s'.sends[s'.outbox[i].tag.id].phase == if i in s'.called then Done(Ok) else Writing
    {
      if i < |s.outbox| {
        assert s'.outbox[i] == s.outbox[i];
      }
    }
  }

  /** A tag that is counted once stands in one place. */
  lemma {:induction false} CountedOnce(outbox: seq<Push>, i: nat, j: nat)
    requires i < j < |outbox| && outbox[i].tag == outbox[j].tag
    ensures CountTag(outbox, outbox[i].tag) >= 2
    decreases |outbox|
  {
    if i > 0 {
      CountedOnce(outbox[1..], i - 1, j - 1);
    } else {
      Counted(outbox[1..], j - 1);
    }
  }

  lemma {:induction false} Counted(outbox: seq<Push>, i: nat)
    requires i < |outbox|
    ensures CountTag(outbox, outbox[i].tag) >= 1
    decreases |outbox|
  {
    if i > 0 {
      Counted(outbox[1..], i - 1);
    }
  }

  // ----- One resumed send -----

  lemma AskKeepsWaiters(s: State, id: nat, rest: seq<nat>, now: int)
    requires WaitersOk(s, [id] + rest) && id < |s.sends| && s.sends[id].iface.Some?
    ensures WaitersOk(AskForKey(s, id, now), rest)
  {
    var s' := AskForKey(s, id, now);
    var wt := Waiter(now + WAIT_FOR_KEY, s.sends[id].target, id);
    IdsAppend(s.waiters, [wt]);
    assert Ids([wt]) == [id];
    assert Ids(s'.waiters) + rest == Ids(s.waiters) + ([id] + rest);
    assert id in [id] + rest;
  }

  lemma AskKeepsSends(s: State, id: nat, now: int)
    requires SendsOk(s) && id < |s.sends| && s.sends[id].iface.Some?
    requires s.sends[id].phase.Waiting? && s.sends[id].asks < MAX_ASKS
    ensures SendsOk(AskForKey(s, id, now))
  {
    var iface := s.sends[id].iface.value;
    var p := Push(iface, AskPacket(iface, s.sends[id].target), Ask(id));
    CountAppendAll(s.outbox, p);
    var s' := AskForKey(s, id, now);
    assert s'.outbox == s.outbox + [p];
    forall i: nat | i < |s'.sends|
      ensures SendOk(s', i)
    {
      assert SendOk(s, i);
    }
    CalledFrame(s, s');
  }

  /** A send that leaves the waiting phase leaves the books of the waiters. */
  lemma LeaveKeepsWaiters(s: State, s': State, id: nat, rest: seq<nat>)
    requires WaitersOk(s, [id] + rest) && id < |s.sends|
    requires |s'.sends| == |s.sends| && s'.waiters == s.waiters && s'.sends == s.sends[id := s'.sends[id]]
    requires s'.sends[id].target == s.sends[id].target && !s'.sends[id].phase.Waiting?
    ensures WaitersOk(s', rest)
  {
    TakeOut(Ids(s.waiters), id, rest);
    forall i: nat
      ensures i in Ids(s'.waiters) + rest <==> i < |s'.sends| && s'.sends[i].phase.Waiting?
    {
      assert i in Ids(s.waiters) + ([id] + rest) <==> i < |s.sends| && s.sends[i].phase.Waiting?;
    }
  }

  lemma TakeOut(a: seq<nat>, x: nat, b: seq<nat>)
    requires Distinct(a + ([x] + b))
    ensures Distinct(a + b) && x !in a + b
    ensures forall y :: y in a + ([x] + b) <==> y == x || y in a + b
  {
    assert a + ([x] + b) == a + [x] + b;
    DistinctMiddle(a, x, b);
    DistinctWithout(a, x, b);
  }

  lemma TransmitKeepsSends(w: World, s: State, id: nat, key: Modulus)
    requires SendsOk(s) && id < |s.sends| && s.sends[id].iface.Some? && s.sends[id].phase.Waiting?
    requires '@' in s.sends[id].target
    ensures SendsOk(Transmit(w, s, id, key))
  {
    var send := s.sends[id];
    var iface := send.iface.value;
    var p := Push(iface, DataPacket(w, iface, send.target, key, send.draw, send.data), Data(id));
    CountAppendAll(s.outbox, p);
    var s' := Transmit(w, s, id, key);
    assert s'.outbox == s.outbox + [p];
    forall i: nat | i < |s'.sends|
      ensures SendOk(s', i)
    {
      assert SendOk(s, i);
    }
    CalledFrame(s, s');
  }

  /** A send may finish without a key only after its last request. */
  lemma GiveUpKeepsSends(s: State, id: nat)
    requires SendsOk(s) && id < |s.sends| && s.sends[id].iface.Some?
    requires s.sends[id].phase.Waiting? && s.sends[id].asks == MAX_ASKS
    ensures SendsOk(Finish(s, id, Unreachable))
  {
    var s' := Finish(s, id, Unreachable);
    forall i: nat | i < |s'.sends|
      ensures SendOk(s', i)
    {
      assert SendOk(s, i);
    }
    CalledFrame(s, s');
  }

  lemma FinishKeepsHandlers(s: State, id: nat, code: Code)
    requires HandlersOk(s) && id < |s.sends| && !s.sends[id].phase.Done?
    ensures HandlersOk(Finish(s, id, code))
  {
    CalledAppend(s.completions, Completion(id, code));
    DistinctAppend(Called(s.completions), id);
    var s' := Finish(s, id, code);
    forall c | c in s'.completions
      ensures c.id < |s'.sends| && s'.sends[c.id].phase == Done(c.code)
    {
      if c in s.completions {
        assert s.sends[c.id].phase.Done?;
      }
    }
  }

  lemma AskKeeps(s: State, id: nat, rest: seq<nat>, now: int)
    requires InvWith(s, [id] + rest) && id < |s.sends| && s.sends[id].iface.Some? && s.sends[id].phase.Waiting?
    requires s.sends[id].asks < MAX_ASKS && s.sends[id].target !in s.store
    ensures InvWith(AskForKey(s, id, now), rest)
  {
    AskKeepsSends(s, id, now);
    AskKeepsWaiters(s, id, rest, now);
  }

  lemma TransmitKeeps(w: World, s: State, id: nat, key: Modulus, rest: seq<nat>)
    requires InvWith(s, [id] + rest) && id < |s.sends| && s.sends[id].iface.Some? && s.sends[id].phase.Waiting?
    requires s.sends[id].target in s.store
    ensures InvWith(Transmit(w, s, id, key), rest)
  {
    TransmitKeepsSends(w, s, id, key);
    LeaveKeepsWaiters(s, Transmit(w, s, id, key), id, rest);
  }

  lemma GiveUpKeeps(s: State, id: nat, rest: seq<nat>)
    requires InvWith(s, [id] + rest) && id < |s.sends| && s.sends[id].iface.Some? && s.sends[id].phase.Waiting?
    requires s.sends[id].asks == MAX_ASKS
    ensures InvWith(Finish(s, id, Unreachable), rest)
  {
    GiveUpKeepsSends(s, id);
    LeaveKeepsWaiters(s, Finish(s, id, Unreachable), id, rest);
    FinishKeepsHandlers(s, id, Unreachable);
  }

  lemma LooseIsWaiting(s: State, id: nat, rest: seq<nat>)
    requires WaitersOk(s, [id] + rest) && SendsOk(s)
    ensures id < |s.sends| && s.sends[id].phase.Waiting? && s.sends[id].iface.Some? && s.sends[id].asks <= MAX_ASKS
  {
    assert id in Ids(s.waiters) + ([id] + rest) by { assert id in [id] + rest; }
    assert SendOk(s, id);
  }

  /** One released or timed-out send, resumed: it transmits, asks again, or gives up. */
  lemma ResumeKeeps(w: World, s: State, id: nat, rest: seq<nat>, now: int)
    requires InvWith(s, [id] + rest)
    ensures InvWith(ResumeSend(w, s, id, now), rest)
    ensures ResumeSend(w, s, id, now).store == s.store
  {
    LooseIsWaiting(s, id, rest);
    match Find(s.store, s.sends[id].target)
    case Some(key) => TransmitKeeps(w, s, id, key, rest);
    case None =>
      if s.sends[id].asks < MAX_ASKS {
        AskKeeps(s, id, rest, now);
      } else {
        GiveUpKeeps(s, id, rest);
      }
  }

  /** Any number of released sends, resumed in any order, leave the kernel as it should be. */
  lemma {:induction false} ResumeAllKeeps(w: World, s: State, ids: seq<nat>, clock: nat -> int)
    requires InvWith(s, ids)
    ensures Inv(ResumeAll(w, s, ids, clock))
    ensures ResumeAll(w, s, ids, clock).store == s.store
    decreases |ids|
  {
    if ids != [] {
      assert ids == [ids[0]] + ids[1..];
      ResumeKeeps(w, s, ids[0], ids[1..], clock(ids[0]));
      ResumeAllKeeps(w, ResumeSend(w, s, ids[0], clock(ids[0])), ids[1..], clock);
    }
  }

  // ----- Releasing waiters -----

  /** Everything of the invariant except that waiters for `src` may find their key stored. */
  ghost predicate InvBut(s: State, src: string) {
    && RoutesOk(s) && KeysOk(s.store)
    && WaitersOk(s, []) && SendsOk(s) && HandlersOk(s)
    && forall wt :: wt in s.waiters ==> wt.target !in s.store || wt.target == src
  }

  lemma SplitOne(x: Waiter, kept: seq<Waiter>, released: seq<Waiter>)
    ensures multiset(Ids([x] + kept) + Ids(released)) == multiset([x.id]) + multiset(Ids(kept) + Ids(released))
    ensures multiset(Ids(kept) + Ids([x] + released)) == multiset([x.id]) + multiset(Ids(kept) + Ids(released))
  {
    assert ([x] + kept)[1..] == kept && ([x] + released)[1..] == released;
  }

  /** The waiters kept and those taken are together all of them. */
  lemma {:induction false} IdsSplit(waiters: seq<Waiter>, keep: Waiter -> bool, take: Waiter -> bool)
    requires forall wt :: keep(wt) <==> !take(wt)
    ensures multiset(Ids(Filter(waiters, keep)) + Ids(Filter(waiters, take))) == multiset(Ids(waiters))
    decreases |waiters|
  {
    if waiters != [] {
      IdsSplit(waiters[1..], keep, take);
      SplitOne(waiters[0], Filter(waiters[1..], keep), Filter(waiters[1..], take));
    }
  }

  /** Taking waiters off the list turns their sends loose and changes nothing else. */
  lemma SplitKeepsWaiters(s: State, kept: seq<Waiter>, loose: seq<nat>)
    requires WaitersOk(s, [])
    requires multiset(Ids(kept) + loose) == multiset(Ids(s.waiters))
    requires forall wt :: wt in kept ==> wt in s.waiters
    ensures WaitersOk(s.(waiters := kept), loose)
  {
    var before, after := Ids(s.waiters), Ids(kept) + loose;
    assert before + [] == before;
    DistinctSub(before, after);
    SameMembers(before, after);
  }

  lemma SameMembers(a: seq<nat>, b: seq<nat>)
    requires multiset(a) == multiset(b)
    ensures forall id :: id in a <==> id in b
  {
    forall id
      ensures id in a <==> id in b
    {
      assert id in multiset(a) <==> id in multiset(b);
    }
  }

  lemma LooseAfterRelease(s: State, src: string)
    requires InvBut(s, src)
    ensures InvWith(s.(waiters := KeptBy(s.store, src, s.waiters)), Ids(ReleasedBy(s.store, src, s.waiters)))
  {
    var s' := s.(waiters := KeptBy(s.store, src, s.waiters));
    IdsSplit(s.waiters, wt => !Released(s.store, src, wt), wt => Released(s.store, src, wt));
    SplitKeepsWaiters(s, s'.waiters, Ids(ReleasedBy(s.store, src, s.waiters)));
    SendsFrame(s, s');
  }

  lemma LooseAfterExpiry(s: State, now: int)
    requires Inv(s)
    ensures InvWith(s.(waiters := Unexpired(s.waiters, now)), Ids(ExpiredOf(s.waiters, now)))
  {
    var s' := s.(waiters := Unexpired(s.waiters, now));
    IdsSplit(s.waiters, (wt: Waiter) => wt.deadline >= now, (wt: Waiter) => wt.deadline < now);
    SplitKeepsWaiters(s, s'.waiters, Ids(ExpiredOf(s.waiters, now)));
    SendsFrame(s, s');
  }

  lemma PostProcessKeeps(w: World, s: State, src: string, now: int)
    requires InvBut(s, src)
    ensures Inv(PostProcess(w, s, src, now))
  {
    LooseAfterRelease(s, src);
    var s' := s.(waiters := KeptBy(s.store, src, s.waiters));
    ResumeAllKeeps(w, s', Ids(ReleasedBy(s.store, src, s.waiters)), (_: nat) => now);
  }

  lemma TickKeeps(w: World, s: State, now: int, clock: nat -> int)
    requires Inv(s)
    ensures Inv(Tick(w, s, now, clock))
  {
    LooseAfterExpiry(s, now);
    ResumeAllKeeps(w, s.(waiters := Unexpired(s.waiters, now)), Ids(ExpiredOf(s.waiters, now)), clock);
  }

  // ----- Receiving -----

  lemma AddedKeyOk(store: Store, a: string, keys: seq<PubKey>)
    requires KeysOk(store) && '@' in a && keys != [] && KeyStore.Sorted(keys)
    ensures KeysOk(AddKey(store, a, keys))
  {
  }

  lemma StoreGrows(s: State, src: string, keys: seq<PubKey>)
    requires InvBut(s, src) && '@' in src && keys != [] && KeyStore.Sorted(keys)
    ensures InvBut(s.(store := AddKey(s.store, src, keys)), src)
  {
    var s' := s.(store := AddKey(s.store, src, keys));
    AddedKeyOk(s.store, src, keys);
    SendsFrame(s, s');
  }

  /** Pushing a packet that no send accounts for. */
  lemma PushKeeps(s: State, src: string, p: Push)
    requires InvBut(s, src) && (p.tag.Forwarded? || p.tag.Reply?)
    ensures InvBut(s.(outbox := s.outbox + [p]), src)
  {
    CountAppendAll(s.outbox, p);
    var s' := s.(outbox := s.outbox + [p]);
    forall id: nat | id < |s'.sends|
      ensures SendOk(s', id)
    {
      assert SendOk(s, id);
    }
    CalledFrame(s, s');
  }

  lemma OtherFieldsKeep(s: State, src: string, recv: seq<(string, Bytes)>, faulted: bool)
    requires InvBut(s, src)
    ensures InvBut(s.(recv := recv, faulted := faulted), src)
  {
    var s' := s.(recv := recv, faulted := faulted);
    SendsFrame(s, s');
  }

  lemma InvIsInvBut(s: State, src: string)
    requires Inv(s)
    ensures InvBut(s, src)
  {
  }

  /** What std::sort may make of the sender's keys when the packet is a pkreply to this kernel. */
  ghost predicate SortChoice(w: World, s: State, p: Packet, now: int, sorted: seq<PubKey>) {
    p.kind.PkReply? && IsToMe(s, p.dest) ==> IsSorting(WithReply(w, Learn(s, p, now), p, now), sorted)
  }

  lemma LearnKeeps(s: State, p: Packet, now: int)
    requires Inv(s)
    ensures InvBut(Learn(s, p, now), ToString(p.src))
  {
    var a := ToString(p.src);
    PrintedIsCanonical(p.src);
    InvIsInvBut(s, a);
    if p.publickey.Some? && Find(s.store, a).None? {
      StoreGrows(s, a, [PubKey(p.publickey.value, now + KEY_LIFETIME)]);
    }
  }

  lemma DispatchKeeps(w: World, s: State, p: Packet, arrival: Iface, now: int, sorted: seq<PubKey>)
    requires InvBut(s, ToString(p.src))
    requires p.kind.PkReply? && IsToMe(s, p.dest) ==> IsSorting(WithReply(w, s, p, now), sorted)
    ensures InvBut(Dispatch(w, s, p, arrival, sorted), ToString(p.src))
  {
    var a := ToString(p.src);
    PrintedIsCanonical(p.src);
    if IsToMe(s, p.dest) {
      match p.kind {
        case PkAsk => PushKeeps(s, a, Push(arrival, ReplyPacket(w, arrival, a), Reply));
        case PkReply =>
          SortingKeepsElements(WithReply(w, s, p, now), sorted);
          StoreGrows(s, a, sorted);
        case _ =>
          var s' := ToMe(w, s, p, arrival, sorted);
          OtherFieldsKeep(s, a, s'.recv, s'.faulted);
      }
    } else if p.ttl > 1 {
      match SelectRoute(w, s, ToString(p.dest)) {
        case NoRoute =>
        case Via(iface) => PushKeeps(s, a, Push(iface, p.(ttl := p.ttl - 1), Forwarded));
        case Missing => OtherFieldsKeep(s, a, s.recv, true);
      }
    }
  }

  /** Processing any packet on any interface: in particular every waiter whose key came is released. */
  lemma ProcessKeeps(w: World, s: State, p: Packet, arrival: Iface, now: int, sorted: seq<PubKey>)
    requires Inv(s) && SortChoice(w, s, p, now, sorted)
    ensures Inv(Process(w, s, p, arrival, now, sorted))
  {
    LearnKeeps(s, p, now);
    DispatchKeeps(w, Learn(s, p, now), p, arrival, now, sorted);
    PostProcessKeeps(w, Dispatch(w, Learn(s, p, now), p, arrival, sorted), ToString(p.src), now);
  }

  // ----- Sending, and administration -----

  lemma NewSendKeepsSends(s: State, send: Send)
    requires Inv(s) && send.asks == 0
    requires if send.phase.Waiting? then send.iface.Some? else send.phase == Done(Unreachable) && send.iface.None?
    ensures SendsOk(s.(sends := s.sends + [send]))
  {
    var s' := s.(sends := s.sends + [send]);
    forall i: nat | i < |s'.sends|
      ensures SendOk(s', i)
    {
      if i < |s.sends| {
        assert SendOk(s, i);
      }
    }
    CalledFrame(s, s');
  }

  lemma NewSendKeepsWaiters(s: State, send: Send)
    requires WaitersOk(s, [])
    ensures WaitersOk(s.(sends := s.sends + [send]), if send.phase.Waiting? then [|s.sends|] else [])
  {
    var id: nat := |s.sends|;
    assert Ids(s.waiters) + [] == Ids(s.waiters);
    assert id !in Ids(s.waiters) + [];
    DistinctAppend(Ids(s.waiters), id);
  }

  lemma NewSendKeeps(s: State, send: Send)
    requires Inv(s) && send.asks == 0
    requires if send.phase.Waiting? then send.iface.Some? else send.phase == Done(Unreachable) && send.iface.None?
    ensures SendsOk(s.(sends := s.sends + [send]))
    ensures WaitersOk(s.(sends := s.sends + [send]), if send.phase.Waiting? then [|s.sends|] else [])
  {
    NewSendKeepsSends(s, send);
    NewSendKeepsWaiters(s, send);
  }

  lemma StartUnreachableKeeps(s: State, send: Send)
    requires Inv(s) && send.asks == 0 && send.phase == Done(Unreachable) && send.iface.None?
    ensures Inv(s.(sends := s.sends + [send], completions := s.completions + [Completion(|s.sends|, Unreachable)]))
  {
    var id: nat := |s.sends|;
    var s1 := s.(sends := s.sends + [send]);
    NewSendKeeps(s, send);
    SendsFrame(s1, s1.(completions := s.completions + [Completion(id, Unreachable)]));
    CalledAppend(s.completions, Completion(id, Unreachable));
    DistinctAppend(Called(s.completions), id);
  }

  lemma StartViaKeeps(w: World, s: State, send: Send, now: int)
    requires Inv(s) && send.asks == 0 && send.phase.Waiting? && send.iface.Some?
    ensures Inv(ResumeSend(w, s.(sends := s.sends + [send]), |s.sends|, now))
  {
    var id: nat := |s.sends|;
    NewSendKeeps(s, send);
    assert [id] + [] == [id];
    ResumeKeeps(w, s.(sends := s.sends + [send]), id, [], now);
  }

  lemma StartKeeps(w: World, s: State, target: string, data: Bytes, draw: nat, now: int)
    requires Inv(s)
    ensures Inv(Start(w, s, target, data, draw, now))
  {
    match SelectRoute(w, s, target)
    case Via(iface) => StartViaKeeps(w, s, Send(target, data, draw, Some(iface), 0, Waiting), now);
    case NoRoute => StartUnreachableKeeps(s, Send(target, data, draw, None, 0, Done(Unreachable)));
    case Missing => SelectNeverMisses(w, s, target);
  }

  /** `m_avifs.at` in `select_route` never throws, and a selected route has the least metric. */
  lemma SelectNeverMisses(w: World, s: State, address: string)
    requires RoutesOk(s)
    ensures !SelectRoute(w, s, address).Missing?
    ensures SelectRoute(w, s, address).NoRoute? <==> forall r :: r in s.routes ==> !w.matches(r.pattern, address)
    ensures SelectRoute(w, s, address).Via? ==>
              exists r :: r in s.routes && w.matches(r.pattern, address)
                && r.ifname in s.ifs && SelectRoute(w, s, address) == Via(s.ifs[r.ifname])
                && forall x :: x in s.routes && w.matches(x.pattern, address) ==> r.metric <= x.metric
  {
    RouteTable.SelectIsLeast(w.matches, s.routes, address);
  }

  /** A send has one data packet, so it stands in one place of the outbox. */
  lemma OneDataPacket(s: State, i: nat, j: nat)
    requires SendsOk(s) && i < |s.outbox| && j < |s.outbox|
    requires s.outbox[i].tag.Data? && s.outbox[j].tag == s.outbox[i].tag
    ensures i == j
  {
    assert CalledOk(s);
    assert SendOk(s, s.outbox[i].tag.id);
    if i < j {
      CountedOnce(s.outbox, i, j);
    } else if j < i {
      CountedOnce(s.outbox, j, i);
    }
  }

  lemma WriteCompletedKeepsCalled(s: State, i: nat)
    requires SendsOk(s) && i < |s.outbox| && i !in s.called
    ensures CalledOk(WriteCompleted(s, i))
  {
    var s' := WriteCompleted(s, i);
    assert CalledOk(s);
    assert s'.outbox == s.outbox && s'.called == s.called + {i};
    assert s.outbox[i].tag.Data? ==> s.outbox[i].tag.id < |s.sends|;
    forall j: nat | j < |s'.outbox| && s'.outbox[j].tag.Data?
      ensures s'.outbox[j].tag.id < |s'.sends|
      ensures s'.sends[s'.outbox[j].tag.id].phase == if j in s'.called then Done(Ok) else Writing
    {
      assert s.outbox[j].tag.id < |s.sends|;
      if s.outbox[j].tag == s.outbox[i].tag {
        OneDataPacket(s, i, j);
      }
    }
  }

  lemma WriteCompletedKeepsSends(s: State, i: nat)
    requires SendsOk(s)
    ensures SendsOk(WriteCompleted(s, i))
  {
    var s' := WriteCompleted(s, i);
    if i < |s.outbox| && i !in s.called {
      WriteCompletedKeepsCalled(s, i);
      assert CalledOk(s);
      assert s.outbox[i].tag.Data? ==> s.sends[s.outbox[i].tag.id].phase.Writing?;
    }
    forall id: nat | id < |s'.sends|
      ensures SendOk(s', id)
    {
      assert SendOk(s, id);
    }
  }

  /** The completion of a data packet finds its send in the write; its handler has not been called. */
  lemma CompletionIsAwaited(s: State, i: nat)
    requires Inv(s) && i < |s.outbox| && i !in s.called && s.outbox[i].tag.Data?
    ensures var id := s.outbox[i].tag.id;
            && id < |s.sends| && s.sends[id].phase.Writing?
            && id !in Called(s.completions) && id !in Ids(s.waiters)
            && WriteCompleted(s, i).completions == s.completions + [Completion(id, Ok)]
  {
    assert CalledOk(s);
    var id := s.outbox[i].tag.id;
    assert id < |s.sends| && s.sends[id].phase.Writing?;
    assert id !in Ids(s.waiters) + [];
  }

  lemma WriteCompletedKeepsHandlers(s: State, i: nat)
    requires Inv(s)
    ensures HandlersOk(WriteCompleted(s, i))
  {
    if i < |s.outbox| && i !in s.called && s.outbox[i].tag.Data? {
      CompletionIsAwaited(s, i);
      FinishKeepsHandlers(s.(called := s.called + {i}), s.outbox[i].tag.id, Ok);
    }
  }

  lemma WriteCompletedKeepsWaiters(s: State, i: nat)
    requires Inv(s)
    ensures WaitersOk(WriteCompleted(s, i), [])
  {
    if i < |s.outbox| && i !in s.called && s.outbox[i].tag.Data? {
      CompletionIsAwaited(s, i);
      DoneKeepsWaiters(s, WriteCompleted(s, i), s.outbox[i].tag.id);
    } else {
      assert WriteCompleted(s, i).waiters == s.waiters && WriteCompleted(s, i).sends == s.sends;
    }
  }

  lemma DoneKeepsWaiters(s: State, s': State, id: nat)
    requires WaitersOk(s, []) && id < |s.sends| && !s.sends[id].phase.Waiting?
    requires s'.waiters == s.waiters && s'.sends == s.sends[id := s.sends[id].(phase := Done(Ok))]
    ensures WaitersOk(s', [])
  {
  }

  lemma WriteCompletedFrame(s: State, i: nat)
    ensures var s' := WriteCompleted(s, i);
            s'.ifs == s.ifs && s'.routes == s.routes && s'.store == s.store && s'.waiters == s.waiters
  {
  }

  lemma RestKeeps(s: State, s': State)
    requires Inv(s) && SendsOk(s') && WaitersOk(s', []) && HandlersOk(s')
    requires s'.ifs == s.ifs && s'.routes == s.routes && s'.store == s.store && s'.waiters == s.waiters
    ensures Inv(s')
  {
  }

  lemma WriteCompletedKeeps(s: State, i: nat)
    requires Inv(s)
    ensures Inv(WriteCompleted(s, i))
  {
    WriteCompletedKeepsSends(s, i);
    WriteCompletedKeepsHandlers(s, i);
    WriteCompletedKeepsWaiters(s, i);
    WriteCompletedFrame(s, i);
    RestKeeps(s, WriteCompleted(s, i));
  }

  /** The administrative steps touch only tables on which the sends do not depend. */
  lemma TablesKeep(s: State, ifs: map<string, Iface>, routes: seq<RouteTable.Route>, store: Store)
    requires Inv(s) && RoutesOk(s.(ifs := ifs, routes := routes)) && KeysOk(store)
    requires forall a :: a in store ==> a in s.store
    ensures Inv(s.(ifs := ifs, routes := routes, store := store))
  {
    var s' := s.(ifs := ifs, routes := routes, store := store);
    SendsFrame(s, s');
  }

  lemma AddInterfaceKeeps(s: State, iface: Iface)
    requires Inv(s)
    ensures Inv(AddInterface(s, iface)) && iface.name in AddInterface(s, iface).ifs
  {
    TablesKeep(s, AddInterface(s, iface).ifs, s.routes, s.store);
  }

  /** A route is added only for a live interface; the sort may leave equal metrics in any order. */
  lemma AddRouteKeeps(s: State, r: RouteTable.Route, routes: seq<RouteTable.Route>)
    requires Inv(s) && r.ifname in s.ifs && RouteTable.IsSorting(s.routes + [r], routes)
    ensures Inv(s.(routes := routes))
  {
    forall x | x in routes
      ensures x in s.routes + [r]
    {
      assert x in multiset(routes);
    }
    TablesKeep(s, s.ifs, routes, s.store);
  }

  /** After an interface is removed no route leads to it. */
  lemma RemoveInterfaceKeeps(s: State, name: string)
    requires Inv(s)
    ensures Inv(RemoveInterface(s, name))
    ensures forall r :: r in RemoveInterface(s, name).routes ==> r.ifname != name
  {
    RouteTable.WithoutSorted(s.routes, name);
    TablesKeep(s, s.ifs - {name}, RouteTable.Without(s.routes, name), s.store);
  }

  lemma PurgeKeeps(s: State, order: seq<string>, now: int)
    requires Inv(s)
    ensures Inv(s.(store := PurgeAlong(s.store, order, now).store))
  {
    var store := PurgeAlong(s.store, order, now).store;
    PurgeShrinks(s.store, order, now);
    ShrinkKeepsOk(s.store, store);
    TablesKeep(s, s.ifs, s.routes, store);
  }
}
