/**
 * What each step of the kernel does to every field of its state, said without the functions that
 * compute it: which packets it enqueues and with what in them, what it stores, for how long, what it
 * receives, whom it resumes, and what it leaves alone.
 */
module KernelSteps {
  import opened Std
  import opened Address
  import opened Cipher
  import opened KeyStore
  import opened Protocol
  import opened KernelInvariant
  import opened KernelEffects
  import RouteTable

  /** 500 hours, in microseconds. */
  const LIFETIME: int := 1_800_000_000_000

  // ----- Whose packet it is -----

  /** Some interface has this user at this domain. */
  ghost predicate Owns(s: State, user: string, domain: string) {
    exists name :: name in s.ifs && s.ifs[name].addr.username == user && s.ifs[name].addr.domain == domain
  }

  lemma LocalExactly(s: State, dest: Address)
    ensures IsToMe(s, dest) <==> Owns(s, dest.username, dest.domain)
  {
  }

  /** Every resource of an interface's address is local. */
  lemma ResourcePlaysNoPart(s: State, name: string, resource: Option<string>)
    requires name in s.ifs
    ensures IsToMe(s, s.ifs[name].addr.(resource := resource))
  {
  }

  /** The first route that matches is taken, and its interface must be there. */
  lemma FirstMatchIsSelected(w: World, s: State, address: string, i: nat)
    requires i < |s.routes| && w.matches(s.routes[i].pattern, address)
    requires forall j :: 0 <= j < i ==> !w.matches(s.routes[j].pattern, address)
    ensures SelectRoute(w, s, address) ==
            if s.routes[i].ifname in s.ifs then Via(s.ifs[s.routes[i].ifname]) else Missing
  {
    FirstMatch(w.matches, s.routes, address, i);
  }

  lemma {:induction false} FirstMatch(
      matches: RouteTable.Matcher, routes: seq<RouteTable.Route>, address: string, i: nat)
    requires i < |routes| && matches(routes[i].pattern, address)
    requires forall j :: 0 <= j < i ==> !matches(routes[j].pattern, address)
    ensures RouteTable.Select(matches, routes, address) == Some(routes[i])
    decreases i
  {
    if i > 0 {
      assert !matches(routes[0].pattern, address);
      FirstMatch(matches, routes[1..], address, i - 1);
    }
  }

  // ----- The packets made here -----

  /** A request: from the interface's address to the target, with 64 hops to live and nothing in it. */
  lemma RequestPacket(iface: Iface, target: string)
    ensures AskPacket(iface, target) == Packet(iface.addr, FromString(target), PkAsk, 64, None, None)
  {
  }

  /** A reply: 64 hops to live, no key, and the certificate of the interface's key. */
  lemma AnswerPacket(w: World, iface: Iface, target: string)
    ensures ReplyPacket(w, iface, target) ==
            Packet(iface.addr, FromString(target), PkReply, 64, None, Some(w.certOf(iface.key)))
  {
  }

  /** A data packet: 64 hops to live, the sender's key, and a payload that the target's key opens. */
  lemma DataPacketOpens(w: World, iface: Iface, target: string, key: Modulus, draw: nat, data: Bytes)
    requires BlockContract(w.rsa(iface.key)) && BlockContract(w.rsa(key))
    ensures var p := DataPacket(w, iface, target, key, draw, data);
            && p.src == iface.addr && p.dest == FromString(target) && p.kind.Avim? && p.ttl == 64
            && p.publickey == Some(iface.key) && p.payload.Some?
            && Open(w.rsa(iface.key), w.rsa(key), p.payload.value) == Some(data)
  {
    OpenUndoesSeal(w.rsa(iface.key), w.rsa(key), draw, data);
  }

  /** A key no larger than the padding seals nothing. */
  lemma SmallKeySealsNothing(w: World, sender: Modulus, target: Modulus, draw: nat, data: Bytes)
    requires w.rsa(sender).size <= 11 || w.rsa(target).size <= 11
    ensures SealWith(w, sender, target, draw, data) == []
  {
  }

  // ----- Processing: what is stored -----

  /** Post-processing stores nothing. */
  lemma StoredByDispatch(w: World, s: State, p: Packet, arrival: Iface, now: int, sorted: seq<PubKey>)
    requires Inv(s) && SortChoice(w, s, p, now, sorted)
    ensures Process(w, s, p, arrival, now, sorted).store == Dispatched(w, s, p, arrival, now, sorted).store
  {
    DispatchedKeeps(w, s, p, arrival, now, sorted);
    ReleaseLeaves(w, Dispatched(w, s, p, arrival, now, sorted), ToString(p.src), now);
  }

  lemma StoredWithoutReply(w: World, s: State, p: Packet, arrival: Iface, now: int, sorted: seq<PubKey>)
    requires !IsReply(s, p)
    ensures Dispatched(w, s, p, arrival, now, sorted).store == Learn(s, p, now).store
  {
    LocalExactly(s, p.dest);
    LocalAfterLearning(s, p, now);
  }

  lemma StoredWithReply(w: World, s: State, p: Packet, arrival: Iface, now: int, sorted: seq<PubKey>)
    requires IsReply(s, p)
    ensures Dispatched(w, s, p, arrival, now, sorted).store == Learn(s, p, now).store[ToString(p.src) := sorted]
  {
    LocalExactly(s, p.dest);
    LocalAfterLearning(s, p, now);
  }

  lemma LocalAfterLearning(s: State, p: Packet, now: int)
    ensures IsToMe(Learn(s, p, now), p.dest) <==> IsToMe(s, p.dest)
    ensures Owns(Learn(s, p, now), p.dest.username, p.dest.domain) <==> Owns(s, p.dest.username, p.dest.domain)
  {
  }

  /** The packet is a reply for this kernel. */
  ghost predicate IsReply(s: State, p: Packet) {
    p.kind.PkReply? && Owns(s, p.dest.username, p.dest.domain)
  }

  /**
   * First contact: a key that comes with a packet from an address without an entry is stored there for 500
   * hours, and every send that waits for that address is released in this very step.
   */
  lemma FirstContact(w: World, s: State, p: Packet, arrival: Iface, now: int, sorted: seq<PubKey>)
    requires Inv(s) && SortChoice(w, s, p, now, sorted) && !IsReply(s, p)
    requires p.publickey.Some? && ToString(p.src) !in s.store
    ensures var a, s' := ToString(p.src), Process(w, s, p, arrival, now, sorted);
            && s'.store == s.store[a := [PubKey(p.publickey.value, now + LIFETIME)]]
            && forall wt :: wt in s.waiters ==> (wt in s'.waiters <==> wt.target != a)
  {
    StoredByDispatch(w, s, p, arrival, now, sorted);
    StoredWithoutReply(w, s, p, arrival, now, sorted);
    ReleasedWhenKeyArrives(w, s, p, arrival, now, sorted);
  }

  /** Any other packet that is no reply for this kernel stores nothing. */
  lemma NothingLearned(w: World, s: State, p: Packet, arrival: Iface, now: int, sorted: seq<PubKey>)
    requires Inv(s) && SortChoice(w, s, p, now, sorted) && !IsReply(s, p)
    requires p.publickey.None? || ToString(p.src) in s.store
    ensures Process(w, s, p, arrival, now, sorted).store == s.store
  {
    StoredByDispatch(w, s, p, arrival, now, sorted);
    StoredWithoutReply(w, s, p, arrival, now, sorted);
  }

  /** What the entry of a reply's sender holds before the reply's own key is added. */
  function HeldBefore(s: State, p: Packet, now: int): seq<PubKey> {
    if ToString(p.src) in s.store then s.store[ToString(p.src)]
    else if p.publickey.Some? then [PubKey(p.publickey.value, now + LIFETIME)]
    else []
  }

  lemma HeldIs(s: State, p: Packet, now: int)
    requires Inv(s)
    ensures KeysOf(Learn(s, p, now).store, ToString(p.src)) == HeldBefore(s, p, now)
    ensures forall b :: b != ToString(p.src) ==> KeysOf(Learn(s, p, now).store, b) == KeysOf(s.store, b)
  {
  }

  /**
   * A reply for this kernel adds to the entry of its sender exactly the key of its certificate, valid for
   * 500 hours, keeps the entry in order of descending expiry, and touches no other entry.
   */
  lemma ReplyAddsKey(w: World, s: State, p: Packet, arrival: Iface, now: int, sorted: seq<PubKey>)
    requires Inv(s) && SortChoice(w, s, p, now, sorted) && IsReply(s, p)
    ensures var a, store := ToString(p.src), Process(w, s, p, arrival, now, sorted).store;
            var crt := if p.payload.Some? then p.payload.value else [];
            && a in store && KeyStore.Sorted(store[a])
            && multiset(store[a]) == multiset(HeldBefore(s, p, now)) + multiset{PubKey(w.certKey(crt), now + LIFETIME)}
            && forall b :: b != a ==> KeysOf(store, b) == KeysOf(s.store, b)
  {
    var a, crt := ToString(p.src), if p.payload.Some? then p.payload.value else [];
    StoredByDispatch(w, s, p, arrival, now, sorted);
    StoredWithReply(w, s, p, arrival, now, sorted);
    LocalExactly(s, p.dest);
    HeldIs(s, p, now);
    SortingKeepsElements(WithReply(w, Learn(s, p, now), p, now), sorted);
    assert WithReply(w, Learn(s, p, now), p, now) == HeldBefore(s, p, now) + [PubKey(w.certKey(crt), now + LIFETIME)];
  }

  // ----- Processing: what is received -----

  /** What decrypting its payload gives; no payload counts as empty data. */
  function Plaintext(w: World, p: Packet, arrival: Iface): Option<Bytes> {
    if p.payload.None? then Some([])
    else Open(w.rsa(if p.publickey.Some? then p.publickey.value else []), w.rsa(arrival.key), p.payload.value)
  }

  lemma DispatchReceives(w: World, s: State, p: Packet, arrival: Iface, sorted: seq<PubKey>)
    requires !SelectRoute(w, s, ToString(p.dest)).Missing?
    ensures var s' := Dispatch(w, s, p, arrival, sorted);
            var decrypted := IsToMe(s, p.dest) && !p.kind.PkAsk? && !p.kind.PkReply?;
            && s'.recv == (if decrypted && p.kind.Avim? && Plaintext(w, p, arrival).Some?
                           then s.recv + [(ToString(p.src), Plaintext(w, p, arrival).value)] else s.recv)
            && (s'.faulted <==> s.faulted || (decrypted && Plaintext(w, p, arrival).None?))
  {
  }

  /**
   * A local packet that is neither request nor reply is decrypted, whatever its protocol: if that fails the
   * step throws; if not, the data of an "avim" packet is received. Nothing else is received and nothing
   * else throws.
   */
  lemma ReceivesExactly(w: World, s: State, p: Packet, arrival: Iface, now: int, sorted: seq<PubKey>)
    requires Inv(s) && SortChoice(w, s, p, now, sorted)
    ensures var s' := Process(w, s, p, arrival, now, sorted);
            var decrypted := Owns(s, p.dest.username, p.dest.domain) && !p.kind.PkAsk? && !p.kind.PkReply?;
            && s'.recv == (if decrypted && p.kind.Avim? && Plaintext(w, p, arrival).Some?
                           then s.recv + [(ToString(p.src), Plaintext(w, p, arrival).value)] else s.recv)
            && (s'.faulted <==> s.faulted || (decrypted && Plaintext(w, p, arrival).None?))
  {
    var s1 := Learn(s, p, now);
    DispatchedKeeps(w, s, p, arrival, now, sorted);
    ReleaseLeaves(w, Dispatched(w, s, p, arrival, now, sorted), ToString(p.src), now);
    LocalExactly(s, p.dest);
    LocalAfterLearning(s, p, now);
    SelectNeverMisses(w, s1, ToString(p.dest));
    DispatchReceives(w, s1, p, arrival, sorted);
  }

  // ----- Processing: what is enqueued -----

  /** What the packet itself leads to: an answer, its being passed on, or nothing. */
  ghost function OwnPushes(w: World, s: State, p: Packet, arrival: Iface): seq<Push> {
    if Owns(s, p.dest.username, p.dest.domain) then
      if p.kind.PkAsk? then
        var answer := Packet(arrival.addr, FromString(ToString(p.src)), PkReply, 64, None, Some(w.certOf(arrival.key)));
        [Push(arrival, answer, Reply)]
      else []
    else if p.ttl > 1 && SelectRoute(w, s, ToString(p.dest)).Via?
    then [Push(SelectRoute(w, s, ToString(p.dest)).iface, p.(ttl := p.ttl - 1), Forwarded)]
    else []
  }

  /** What a waiting send waits for: a packet from its target, with a key for it in the store by then. */
  lemma ReleasedExactly(store: Store, src: string, wt: Waiter)
    requires StoreOk(store)
    ensures Released(store, src, wt) <==> wt.target == src && src in store
  {
  }

  /** The sends whose waits end when keys are as in `store`. */
  ghost predicate Wakes(s: State, store: Store, id: nat) {
    exists wt :: wt in s.waiters && wt.id == id && wt.target in store
  }

  /** A send resumed with its key enqueues one data packet and no other. */
  lemma {:induction false} KeyedResumesPushData(w: World, s: State, ids: seq<nat>, clock: nat -> int)
    requires InvWith(s, ids)
    requires forall id :: id in ids && id < |s.sends| ==> s.sends[id].target in s.store
    ensures s.outbox <= ResumeAll(w, s, ids, clock).outbox
    ensures forall push :: push in ResumeAll(w, s, ids, clock).outbox[|s.outbox|..] ==>
              push.tag.Data? && push.tag.id in ids
    decreases |ids|
  {
    if ids != [] {
      assert ids == [ids[0]] + ids[1..];
      var s', all := ResumeSend(w, s, ids[0], clock(ids[0])), ResumeAll(w, s, ids, clock);
      KeyedResume(w, s, ids[0], ids[1..], clock(ids[0]));
      ResumeKeeps(w, s, ids[0], ids[1..], clock(ids[0]));
      KeyedResumesPushData(w, s', ids[1..], clock);
      TailSplits(s.outbox, s'.outbox, all.outbox);
    }
  }

  lemma TailSplits(a: seq<Push>, b: seq<Push>, all: seq<Push>)
    requires a <= b <= all
    ensures forall push :: push in all[|a|..] <==> push in b[|a|..] || push in all[|b|..]
  {
    assert all[|a|..] == b[|a|..] + all[|b|..];
  }

  lemma ReleasedPushData(w: World, s: State, src: string, now: int)
    requires InvBut(s, src)
    ensures var s' := PostProcess(w, s, src, now);
            && s.outbox <= s'.outbox
            && forall push :: push in s'.outbox[|s.outbox|..] ==>
                 push.tag.Data? && push.tag.id in Ids(ReleasedBy(s.store, src, s.waiters))
  {
    var released := ReleasedBy(s.store, src, s.waiters);
    var s' := s.(waiters := KeptBy(s.store, src, s.waiters));
    LooseAfterRelease(s, src);
    forall id | id in Ids(released) && id < |s'.sends|
      ensures s'.sends[id].target in s'.store
    {
      IdsOfWaiters(released, id);
    }
    KeyedResumesPushData(w, s', Ids(released), (_: nat) => now);
  }

  lemma SelectionAfterLearning(w: World, s: State, p: Packet, now: int)
    ensures SelectRoute(w, Learn(s, p, now), ToString(p.dest)) == SelectRoute(w, s, ToString(p.dest))
  {
  }

  lemma LocalPushes(w: World, s: State, p: Packet, arrival: Iface, sorted: seq<PubKey>)
    requires IsToMe(s, p.dest)
    ensures Dispatch(w, s, p, arrival, sorted).outbox ==
            s.outbox + if p.kind.PkAsk? then [Push(arrival, ReplyPacket(w, arrival, ToString(p.src)), Reply)] else []
  {
    assert s.outbox + [] == s.outbox;
  }

  lemma ForeignPushes(w: World, s: State, p: Packet, arrival: Iface, sorted: seq<PubKey>)
    requires !IsToMe(s, p.dest)
    ensures var selected := SelectRoute(w, s, ToString(p.dest));
            Dispatch(w, s, p, arrival, sorted).outbox ==
            s.outbox +
            if p.ttl > 1 && selected.Via? then [Push(selected.iface, p.(ttl := p.ttl - 1), Forwarded)] else []
  {
    assert s.outbox + [] == s.outbox;
  }

  lemma OwnPushesFirst(w: World, s: State, p: Packet, arrival: Iface, now: int, sorted: seq<PubKey>)
    requires Inv(s)
    ensures Dispatched(w, s, p, arrival, now, sorted).outbox == s.outbox + OwnPushes(w, s, p, arrival)
  {
    var s1 := Learn(s, p, now);
    LocalExactly(s, p.dest);
    LocalAfterLearning(s, p, now);
    SelectionAfterLearning(w, s, p, now);
    if Owns(s, p.dest.username, p.dest.domain) {
      LocalPushes(w, s1, p, arrival, sorted);
    } else {
      ForeignPushes(w, s1, p, arrival, sorted);
    }
  }

  lemma ReleasedIsWoken(w: World, s: State, p: Packet, arrival: Iface, now: int, sorted: seq<PubKey>, id: nat)
    requires Inv(s) && SortChoice(w, s, p, now, sorted)
    ensures var s2 := Dispatched(w, s, p, arrival, now, sorted);
            id in Ids(ReleasedBy(s2.store, ToString(p.src), s2.waiters)) <==>
            Wakes(s, Process(w, s, p, arrival, now, sorted).store, id)
  {
    var src, s2 := ToString(p.src), Dispatched(w, s, p, arrival, now, sorted);
    StoredByDispatch(w, s, p, arrival, now, sorted);
    DispatchedKeeps(w, s, p, arrival, now, sorted);
    DispatchedGrows(w, s, p, arrival, now, sorted);
    var released := ReleasedBy(s2.store, src, s2.waiters);
    if id in Ids(released) {
      IdsOfWaiters(released, id);
    }
    if Wakes(s, s2.store, id) {
      var wt :| wt in s.waiters && wt.id == id && wt.target in s2.store;
      assert wt in released;
      IdInIds(released, wt);
    }
  }

  /**
   * Processing a packet enqueues first what the packet itself leads to, and then data packets of sends
   * whose key has come, and nothing else: no request, in particular, and no packet that has died.
   */
  lemma EnqueuesExactly(w: World, s: State, p: Packet, arrival: Iface, now: int, sorted: seq<PubKey>)
    requires Inv(s) && SortChoice(w, s, p, now, sorted)
    ensures var s', own := Process(w, s, p, arrival, now, sorted), OwnPushes(w, s, p, arrival);
            && s.outbox + own <= s'.outbox
            && forall push :: push in s'.outbox[|s.outbox + own|..] ==>
                 push.tag.Data? && Wakes(s, s'.store, push.tag.id)
  {
    var src, s2 := ToString(p.src), Dispatched(w, s, p, arrival, now, sorted);
    DispatchedKeeps(w, s, p, arrival, now, sorted);
    OwnPushesFirst(w, s, p, arrival, now, sorted);
    ReleasedPushData(w, s2, src, now);
    forall push | push in Process(w, s, p, arrival, now, sorted).outbox[|s2.outbox|..]
      ensures push.tag.Data? && Wakes(s, Process(w, s, p, arrival, now, sorted).store, push.tag.id)
    {
      ReleasedIsWoken(w, s, p, arrival, now, sorted, push.tag.id);
    }
  }

  // ----- Processing: who is resumed, and what stays -----

  /** Exactly the sends whose key has come go on to write; nobody's handler is called. */
  lemma ResumesExactly(w: World, s: State, p: Packet, arrival: Iface, now: int, sorted: seq<PubKey>)
    requires Inv(s) && SortChoice(w, s, p, now, sorted)
    ensures var s' := Process(w, s, p, arrival, now, sorted);
            && |s'.sends| == |s.sends| && s'.completions == s.completions
            && forall i {:trigger s'.sends[i]} :: 0 <= i < |s.sends| ==>
                 s'.sends[i] == if Wakes(s, s'.store, i) then s.sends[i].(phase := Writing) else s.sends[i]
  {
    var src, s' := ToString(p.src), Process(w, s, p, arrival, now, sorted);
    var s2 := Dispatched(w, s, p, arrival, now, sorted);
    DispatchedKeeps(w, s, p, arrival, now, sorted);
    DispatchedGrows(w, s, p, arrival, now, sorted);
    DispatchGrows(w, Learn(s, p, now), p, arrival, sorted);
    ReleasedSendsTransmit(w, s2, src, now);
    ReleaseLeaves(w, s2, src, now);
    forall i: nat | i < |s.sends|
      ensures s'.sends[i] == if Wakes(s, s'.store, i) then s.sends[i].(phase := Writing) else s.sends[i]
    {
      ReleasedIsWoken(w, s, p, arrival, now, sorted, i);
    }
  }

  lemma LeavesAlone(w: World, s: State, p: Packet, arrival: Iface, now: int, sorted: seq<PubKey>)
    ensures var s' := Process(w, s, p, arrival, now, sorted);
            s'.ifs == s.ifs && s'.routes == s.routes && s'.called == s.called
  {
    ProcessKeepsOutside(w, s, p, arrival, now, sorted);
  }

  // ----- Sending -----

  /** Without a route the handler is called at once, with the error, and nothing is sent. */
  lemma SendWithoutRoute(w: World, s: State, target: string, data: Bytes, draw: nat, now: int)
    requires Inv(s) && forall r :: r in s.routes ==> !w.matches(r.pattern, target)
    ensures var id := |s.sends|;
            Start(w, s, target, data, draw, now) ==
            s.(sends := s.sends + [Send(target, data, draw, None, 0, Done(Unreachable))],
               completions := s.completions + [Completion(id, Unreachable)])
  {
    SelectNeverMisses(w, s, target);
  }

  /** With a route and a key: one data packet, on the route's interface, sealed with that key. */
  lemma SendWithKey(w: World, s: State, target: string, data: Bytes, draw: nat, now: int, iface: Iface)
    requires Inv(s) && SelectRoute(w, s, target) == Via(iface) && target in s.store
    ensures var id, key := |s.sends|, s.store[target][0].key;
            Start(w, s, target, data, draw, now) ==
            s.(sends := s.sends + [Send(target, data, draw, Some(iface), 0, Writing)],
               outbox := s.outbox + [Push(iface, DataPacket(w, iface, target, key, draw, data), Data(id))])
  {
    var id := |s.sends|;
    var waiting := Send(target, data, draw, Some(iface), 0, Waiting);
    assert (s.sends + [waiting])[id := waiting.(phase := Writing)] == s.sends + [waiting.(phase := Writing)];
  }

  /** With a route and no key: one request, and a wait of 8 seconds. */
  lemma SendWithoutKey(w: World, s: State, target: string, data: Bytes, draw: nat, now: int, iface: Iface)
    requires Inv(s) && SelectRoute(w, s, target) == Via(iface) && target !in s.store
    ensures var id := |s.sends|;
            Start(w, s, target, data, draw, now) ==
            s.(sends := s.sends + [Send(target, data, draw, Some(iface), 1, Waiting)],
               waiters := s.waiters + [Waiter(now + 8_000_000, target, id)],
               outbox := s.outbox +
                 [Push(iface, Packet(iface.addr, FromString(target), PkAsk, 64, None, None), Ask(id))])
  {
    var id := |s.sends|;
    var waiting := Send(target, data, draw, Some(iface), 0, Waiting);
    assert (s.sends + [waiting])[id := waiting.(asks := 1)] == s.sends + [waiting.(asks := 1)];
  }

  /** At most three requests for a send, and exactly three before it gives up for want of a key. */
  lemma ThreeRequests(s: State, id: nat)
    requires Inv(s) && id < |s.sends|
    ensures CountTag(s.outbox, Ask(id)) <= 3 && CountTag(s.outbox, Data(id)) <= 1
    ensures s.sends[id].phase == Done(Unreachable) && s.sends[id].iface.Some? ==> CountTag(s.outbox, Ask(id)) == 3
  {
    assert SendOk(s, id);
  }

  // ----- The timer -----

  /**
   * The timer tick: exactly the sends of the waiters whose deadline lies before `now` go on, to their next
   * request if they have made fewer than three, and else to their end; no key is stored, nothing received.
   */
  lemma TickResumesExactly(w: World, s: State, now: int, clock: nat -> int)
    requires Inv(s)
    ensures var s' := Tick(w, s, now, clock);
            && s'.store == s.store && s'.recv == s.recv && SameOutside(s, s') && |s'.sends| == |s.sends|
            && forall i {:trigger s'.sends[i]} :: 0 <= i < |s.sends| ==>
                 s'.sends[i] ==
                 if !(exists wt :: wt in s.waiters && wt.id == i && wt.deadline < now) then s.sends[i]
                 else if s.sends[i].asks < 3 then s.sends[i].(asks := s.sends[i].asks + 1)
                 else s.sends[i].(phase := Done(Unreachable))
  {
    var s', expired := Tick(w, s, now, clock), ExpiredOf(s.waiters, now);
    ExpiredSendsRetry(w, s, now, clock);
    TickKeepsOutside(w, s, now, clock);
    LooseAfterExpiry(s, now);
    ResumeAllKeeps(w, s.(waiters := Unexpired(s.waiters, now)), Ids(expired), clock);
    ResumesForwardNothing(w, s.(waiters := Unexpired(s.waiters, now)), Ids(expired), clock);
    forall i: nat | i < |s.sends|
      ensures i in Ids(expired) <==> exists wt :: wt in s.waiters && wt.id == i && wt.deadline < now
    {
      if i in Ids(expired) {
        IdsOfWaiters(expired, i);
      }
      if wt :| wt in s.waiters && wt.id == i && wt.deadline < now {
        IdInIds(expired, wt);
      }
    }
  }

  /** The waiter that the send of an expired one puts on the list when it asks again. */
  ghost predicate AsksAgain(s: State, now: int, clock: nat -> int, wt: Waiter, x: Waiter) {
    && wt in s.waiters && wt.deadline < now && wt.id < |s.sends| && s.sends[wt.id].asks < 3
    && x == Waiter(clock(wt.id) + 8_000_000, wt.target, wt.id)
  }

  lemma RenewedAsks(s: State, now: int, clock: nat -> int, x: Waiter)
    requires Inv(s)
    ensures x in Renewed(s, Ids(ExpiredOf(s.waiters, now)), clock) ==> exists wt :: AsksAgain(s, now, clock, wt, x)
  {
    var expired := ExpiredOf(s.waiters, now);
    RenewedExactly(s, Ids(expired), clock, x);
    if x in Renewed(s, Ids(expired), clock) {
      var id :| id in Ids(expired) && id < |s.sends| && s.sends[id].asks < 3
                && x == Waiter(clock(id) + 8_000_000, s.sends[id].target, id);
      IdsOfWaiters(expired, id);
      var wt :| wt in expired && wt.id == id;
      assert AsksAgain(s, now, clock, wt, x);
    }
  }

  lemma AskingIsRenewed(s: State, now: int, clock: nat -> int, wt: Waiter, x: Waiter)
    requires Inv(s) && AsksAgain(s, now, clock, wt, x)
    ensures x in Renewed(s, Ids(ExpiredOf(s.waiters, now)), clock)
  {
    IdInIds(ExpiredOf(s.waiters, now), wt);
    RenewedExactly(s, Ids(ExpiredOf(s.waiters, now)), clock, x);
  }

  /** A waiter is on the list afterwards if its deadline has not passed, or if its send has asked again. */
  lemma TickWaitersExactly(w: World, s: State, now: int, clock: nat -> int, x: Waiter)
    requires Inv(s)
    ensures x in Tick(w, s, now, clock).waiters <==>
            (x in s.waiters && x.deadline >= now) || (exists wt :: AsksAgain(s, now, clock, wt, x))
  {
    TickRenews(w, s, now, clock);
    RenewedAsks(s, now, clock, x);
    if wt :| AsksAgain(s, now, clock, wt, x) {
      AskingIsRenewed(s, now, clock, wt, x);
    }
  }

  lemma {:induction false} RenewedExactly(s: State, ids: seq<nat>, clock: nat -> int, x: Waiter)
    ensures x in Renewed(s, ids, clock) <==>
            exists id :: id in ids && id < |s.sends| && s.sends[id].asks < 3
              && x == Waiter(clock(id) + 8_000_000, s.sends[id].target, id)
    decreases |ids|
  {
    if ids != [] {
      RenewedExactly(s, ids[1..], clock, x);
    }
  }

  // ----- The writer -----

  /** A completion ends the send of a data packet with success; for any other packet it does nothing. */
  lemma CompletionExactly(s: State, i: nat)
    requires Inv(s) && i < |s.outbox| && i !in s.called
    ensures var s', tag := WriteCompleted(s, i), s.outbox[i].tag;
            if tag.Data?
            then tag.id < |s.sends|
                 && s' == s.(called := s.called + {i}, completions := s.completions + [Completion(tag.id, Ok)],
                             sends := s.sends[tag.id := s.sends[tag.id].(phase := Done(Ok))])
            else s' == s.(called := s.called + {i})
  {
    if s.outbox[i].tag.Data? {
      CompletionIsAwaited(s, i);
    }
  }

  // ----- Interfaces -----

  /** An interface of a new name is added, one of a known name is not, and the others stay. */
  lemma AddsOneInterface(s: State, iface: Iface)
    ensures var s' := AddInterface(s, iface);
            && s'.ifs.Keys == s.ifs.Keys + {iface.name}
            && (iface.name !in s.ifs ==> s'.ifs[iface.name] == iface)
            && (forall name :: name in s.ifs ==> s'.ifs[name] == s.ifs[name])
            && s' == s.(ifs := s'.ifs)
  {
  }

  /** The interface is gone with its routes; all others stay, in their order. */
  lemma RemovesOneInterface(s: State, name: string)
    ensures var s' := RemoveInterface(s, name);
            && s'.ifs.Keys == s.ifs.Keys - {name}
            && (forall other :: other in s.ifs && other != name ==> s'.ifs[other] == s.ifs[other])
            && s'.routes == Filter(s.routes, (r: RouteTable.Route) => r.ifname != name)
            && (forall r :: r in s'.routes <==> r in s.routes && r.ifname != name)
            && (forall r: RouteTable.Route :: r.ifname != name ==> multiset(s'.routes)[r] == multiset(s.routes)[r])
            && s' == s.(ifs := s'.ifs, routes := s'.routes)
  {
    FilterCounts(s.routes, (r: RouteTable.Route) => r.ifname != name);
  }

  lemma {:induction false} FilterCounts<T(!new)>(s: seq<T>, keep: T -> bool)
    ensures forall x :: keep(x) ==> multiset(Filter(s, keep))[x] == multiset(s)[x]
  {
    if s != [] {
      FilterCounts(s[1..], keep);
      assert s == [s[0]] + s[1..];
    }
  }

  /** A target that was routed over another interface is routed over it still. */
  lemma OtherRoutesStand(w: World, s: State, name: string, address: string, iface: Iface)
    requires Inv(s) && SelectRoute(w, s, address) == Via(iface)
    requires RouteTable.Select(w.matches, s.routes, address).value.ifname != name
    ensures SelectRoute(w, RemoveInterface(s, name), address) == Via(iface)
  {
    SelectSurvives(w.matches, s.routes, address, name);
  }

  lemma {:induction false} SelectSurvives(
      matches: RouteTable.Matcher, routes: seq<RouteTable.Route>, address: string, name: string)
    requires var r := RouteTable.Select(matches, routes, address); r.Some? && r.value.ifname != name
    ensures RouteTable.Select(matches, RouteTable.Without(routes, name), address) ==
            RouteTable.Select(matches, routes, address)
    decreases |routes|
  {
    if !matches(routes[0].pattern, address) {
      SelectSurvives(matches, routes[1..], address, name);
    }
  }
}
