/**
 * Kernels whose interfaces carry their own keys make packets that open: what one kernel does to keep
 * it so. A realm fixes which key belongs to which address; each kernel has one key pair.
 */
module Honesty {
  import opened Std
  import opened Address
  import opened Cipher
  import opened KeyStore
  import opened Protocol
  import opened KernelInvariant
  import opened KernelEffects

  /** `owner` gives the key of a user at a domain, `keyOf` the key pair of a kernel. */
  datatype Realm = Realm(w: World, owner: (string, string) -> Modulus, keyOf: nat -> Modulus)

  function Owner(r: Realm, a: Address): Modulus {
    r.owner(a.username, a.domain)
  }

  /** A key whose block operations meet the contract of `Cipher`. */
  ghost predicate Usable(r: Realm, key: Modulus) {
    BlockContract(r.w.rsa(key))
  }

  ghost predicate HonestIface(r: Realm, k: nat, iface: Iface) {
    && WellFormed(iface.addr)
    && iface.key == r.keyOf(k) == Owner(r, iface.addr)
    && Usable(r, iface.key)
    && r.w.certKey(r.w.certOf(iface.key)) == iface.key
  }

  ghost predicate HonestKey(r: Realm, a: Address, key: Modulus) {
    key == Owner(r, a) && Usable(r, key)
  }

  ghost predicate HonestStore(r: Realm, store: Store) {
    forall a {:trigger store[a]} :: a in store ==> forall pk :: pk in store[a] ==> HonestKey(r, FromString(a), pk.key)
  }

  ghost predicate HonestSend(r: Realm, k: nat, send: Send) {
    send.iface.Some? ==> HonestIface(r, k, send.iface.value)
  }

  ghost predicate HonestState(r: Realm, k: nat, s: State) {
    && (forall name {:trigger s.ifs[name]} :: name in s.ifs ==> HonestIface(r, k, s.ifs[name]))
    && (forall i {:trigger s.sends[i]} :: 0 <= i < |s.sends| ==> HonestSend(r, k, s.sends[i]))
    && HonestStore(r, s.store)
    && !s.faulted
  }

  /** The source is well formed, and every key the packet carries is its source's own. */
  ghost predicate HonestPacket(r: Realm, p: Packet) {
    && WellFormed(p.src)
    && (p.publickey.Some? ==> HonestKey(r, p.src, p.publickey.value))
    && (p.kind.PkReply? ==> p.payload.Some? && HonestKey(r, p.src, r.w.certKey(p.payload.value)))
    && !p.kind.OtherKind?
  }

  /** The packet is the one that this send made for the owner of its target, whatever hops it took. */
  ghost predicate IsDataOf(r: Realm, send: Send, p: Packet) {
    && send.iface.Some?
    && HonestKey(r, FromString(send.target), Owner(r, FromString(send.target)))
    && Usable(r, send.iface.value.key)
    && p.(ttl := INITIAL_TTL) ==
       DataPacket(r.w, send.iface.value, send.target, Owner(r, FromString(send.target)), send.draw, send.data)
  }

  /** What a kernel pushes: its own packets, or the packet `p` with one hop less. */
  ghost predicate HonestPush(r: Realm, s: State, p: Option<Packet>, push: Push) {
    match push.tag
    case Forwarded => p.Some? && push.packet == p.value.(ttl := push.packet.ttl)
    case Data(i) => HonestPacket(r, push.packet) && i < |s.sends| && IsDataOf(r, s.sends[i], push.packet)
    case _ => HonestPacket(r, push.packet) && !push.packet.kind.Avim?
  }

  ghost predicate NewPushesHonest(r: Realm, s: State, s': State, p: Option<Packet>) {
    && s.outbox <= s'.outbox
    && forall j {:trigger s'.outbox[j]} :: |s.outbox| <= j < |s'.outbox| ==> HonestPush(r, s', p, s'.outbox[j])
  }

  lemma HonestPushGrows(r: Realm, s: State, s': State, p: Option<Packet>, push: Push)
    requires HonestPush(r, s, p, push) && Grows(s, s')
    ensures HonestPush(r, s', p, push)
  {
    if push.tag.Data? {
      assert SameSend(s.sends[push.tag.id], s'.sends[push.tag.id]);
    }
  }

  lemma NewPushesTransitive(r: Realm, s: State, s': State, s'': State, p: Option<Packet>)
    requires NewPushesHonest(r, s, s', p) && NewPushesHonest(r, s', s'', p) && Grows(s', s'')
    ensures NewPushesHonest(r, s, s'', p)
  {
    forall j | |s.outbox| <= j < |s''.outbox|
      ensures HonestPush(r, s'', p, s''.outbox[j])
    {
      if j < |s'.outbox| {
        assert s''.outbox[j] == s'.outbox[j];
        HonestPushGrows(r, s', s'', p, s'.outbox[j]);
      }
    }
  }

  lemma FoundKeyIsHonest(r: Realm, store: Store, a: string)
    requires HonestStore(r, store) && Find(store, a).Some?
    ensures HonestKey(r, FromString(a), Find(store, a).value)
  {
    assert store[a][0] in store[a];
  }

  /** A resumed send makes an honest packet: a request, or its data for the owner of its target. */
  lemma ResumeHonest(r: Realm, k: nat, s: State, id: nat, now: int, p: Option<Packet>)
    requires HonestState(r, k, s)
    ensures HonestState(r, k, ResumeSend(r.w, s, id, now))
    ensures NewPushesHonest(r, s, ResumeSend(r.w, s, id, now), p)
  {
    if id < |s.sends| && s.sends[id].iface.Some? {
      var send, s' := s.sends[id], ResumeSend(r.w, s, id, now);
      assert HonestSend(r, k, send);
      if Find(s.store, send.target).Some? {
        FoundKeyIsHonest(r, s.store, send.target);
      }
    }
  }

  lemma {:induction false} ResumeAllHonest(
      r: Realm, k: nat, s: State, ids: seq<nat>, clock: nat -> int, p: Option<Packet>)
    requires HonestState(r, k, s) && InvWith(s, ids)
    ensures HonestState(r, k, ResumeAll(r.w, s, ids, clock))
    ensures NewPushesHonest(r, s, ResumeAll(r.w, s, ids, clock), p)
    decreases |ids|
  {
    if ids != [] {
      var s' := ResumeSend(r.w, s, ids[0], clock(ids[0]));
      assert ids == [ids[0]] + ids[1..];
      ResumeKeeps(r.w, s, ids[0], ids[1..], clock(ids[0]));
      ResumeHonest(r, k, s, ids[0], clock(ids[0]), p);
      ResumeAllHonest(r, k, s', ids[1..], clock, p);
      ResumeAllGrows(r.w, s', ids[1..], clock);
      NewPushesTransitive(r, s, s', ResumeAll(r.w, s, ids, clock), p);
    }
  }

  // ----- Receiving an honest packet -----

  lemma StoredUnder(r: Realm, src: Address, key: Modulus)
    requires WellFormed(src) && HonestKey(r, src, key)
    ensures HonestKey(r, FromString(ToString(src)), key)
  {
    RoundTrip(src);
  }

  lemma LearnHonest(r: Realm, k: nat, s: State, p: Packet, now: int)
    requires HonestState(r, k, s) && HonestPacket(r, p)
    ensures HonestState(r, k, Learn(s, p, now))
  {
    if p.publickey.Some? {
      StoredUnder(r, p.src, p.publickey.value);
    }
  }

  lemma ReplyHonest(r: Realm, k: nat, s: State, p: Packet, now: int, sorted: seq<PubKey>)
    requires HonestState(r, k, s) && HonestPacket(r, p) && p.kind.PkReply?
    requires IsSorting(WithReply(r.w, s, p, now), sorted)
    ensures HonestStore(r, AddKey(s.store, ToString(p.src), sorted))
  {
    var a := ToString(p.src);
    StoredUnder(r, p.src, r.w.certKey(p.payload.value));
    SortingKeepsElements(WithReply(r.w, s, p, now), sorted);
    forall pk | pk in sorted
      ensures HonestKey(r, FromString(a), pk.key)
    {
      assert pk in WithReply(r.w, s, p, now);
    }
  }

  /** At its destination the data of a send opens to exactly what was sent. */
  lemma DataOpens(r: Realm, k: nat, s: State, send: Send, p: Packet, arrival: Iface)
    requires HonestState(r, k, s) && IsToMe(s, p.dest) && HonestIface(r, k, arrival)
    requires IsDataOf(r, send, p)
    ensures p.kind.Avim? && p.publickey.Some? && p.payload.Some?
    ensures Open(r.w.rsa(p.publickey.value), r.w.rsa(arrival.key), p.payload.value) == Some(send.data)
    ensures p.src == send.iface.value.addr && p.dest == FromString(send.target)
    ensures r.keyOf(k) == Owner(r, FromString(send.target))
  {
    var name :| name in s.ifs
      && s.ifs[name].addr.username == p.dest.username && s.ifs[name].addr.domain == p.dest.domain;
    assert HonestIface(r, k, s.ifs[name]);
    OpenUndoesSeal(r.w.rsa(send.iface.value.key), r.w.rsa(arrival.key), send.draw, send.data);
  }

  /** The receive buffer gets nothing, or exactly the source's name and the data of the send. */
  ghost predicate ReceivesOnly(r: Realm, k: nat, s: State, s': State, send: Option<Send>) {
    || s'.recv == s.recv
    || (send.Some? && send.value.iface.Some?
        && s'.recv == s.recv + [(ToString(send.value.iface.value.addr), send.value.data)]
        && r.keyOf(k) == Owner(r, FromString(send.value.target)))
  }

  /** A packet of a closed network: honest, and if it carries data, the data of a send. */
  ghost predicate Accounted(r: Realm, p: Packet, send: Option<Send>) {
    && HonestPacket(r, p)
    && (p.kind.Avim? <==> send.Some?)
    && (send.Some? ==> IsDataOf(r, send.value, p))
  }

  lemma ToMeHonest(
      r: Realm, k: nat, s: State, p: Packet, arrival: Iface, now: int, sorted: seq<PubKey>, send: Option<Send>)
    requires HonestState(r, k, s) && Accounted(r, p, send) && HonestIface(r, k, arrival) && IsToMe(s, p.dest)
    requires p.kind.PkReply? ==> IsSorting(WithReply(r.w, s, p, now), sorted)
    ensures var s' := ToMe(r.w, s, p, arrival, sorted);
            HonestState(r, k, s') && NewPushesHonest(r, s, s', Some(p)) && ReceivesOnly(r, k, s, s', send)
  {
    match p.kind
    case PkAsk =>
      assert HonestPacket(r, ReplyPacket(r.w, arrival, ToString(p.src)));
    case PkReply => ReplyHonest(r, k, s, p, now, sorted);
    case Avim => DataOpens(r, k, s, send.value, p, arrival);
    case OtherKind =>
  }

  lemma DispatchHonest(
      r: Realm, k: nat, s: State, p: Packet, arrival: Iface, now: int, sorted: seq<PubKey>, send: Option<Send>)
    requires HonestState(r, k, s) && RoutesOk(s) && Accounted(r, p, send) && HonestIface(r, k, arrival)
    requires p.kind.PkReply? && IsToMe(s, p.dest) ==> IsSorting(WithReply(r.w, s, p, now), sorted)
    ensures var s' := Dispatch(r.w, s, p, arrival, sorted);
            HonestState(r, k, s') && NewPushesHonest(r, s, s', Some(p)) && ReceivesOnly(r, k, s, s', send)
  {
    if IsToMe(s, p.dest) {
      ToMeHonest(r, k, s, p, arrival, now, sorted, send);
    } else if p.ttl > 1 {
      SelectNeverMisses(r.w, s, ToString(p.dest));
    }
  }

  lemma PostProcessHonest(r: Realm, k: nat, s: State, src: string, now: int, p: Option<Packet>)
    requires HonestState(r, k, s) && InvBut(s, src)
    ensures var s' := PostProcess(r.w, s, src, now);
            HonestState(r, k, s') && NewPushesHonest(r, s, s', p) && s'.recv == s.recv
  {
    var s' := s.(waiters := KeptBy(s.store, src, s.waiters));
    LooseAfterRelease(s, src);
    assert HonestState(r, k, s');
    ResumeAllHonest(r, k, s', Ids(ReleasedBy(s.store, src, s.waiters)), (_: nat) => now, p);
    ReleaseLeaves(r.w, s, src, now);
  }

  /** Processing: nothing throws, everything pushed is honest, and what is received was sent. */
  lemma ProcessHonest(
      r: Realm, k: nat, s: State, p: Packet, arrival: Iface, now: int, sorted: seq<PubKey>, send: Option<Send>)
    requires HonestState(r, k, s) && Inv(s) && Accounted(r, p, send) && HonestIface(r, k, arrival)
    requires SortChoice(r.w, s, p, now, sorted)
    ensures var s' := Process(r.w, s, p, arrival, now, sorted);
            HonestState(r, k, s') && NewPushesHonest(r, s, s', Some(p)) && ReceivesOnly(r, k, s, s', send)
  {
    var s1, s2 := Learn(s, p, now), Dispatched(r.w, s, p, arrival, now, sorted);
    LearnHonest(r, k, s, p, now);
    DispatchHonest(r, k, s1, p, arrival, now, sorted, send);
    DispatchedKeeps(r.w, s, p, arrival, now, sorted);
    PostProcessHonest(r, k, s2, ToString(p.src), now, Some(p));
    PostProcessGrows(r.w, s2, ToString(p.src), now);
    assert NewPushesHonest(r, s, s2, Some(p));
    NewPushesTransitive(r, s, s2, Process(r.w, s, p, arrival, now, sorted), Some(p));
  }

  // ----- The other steps -----

  lemma StartHonest(r: Realm, k: nat, s: State, target: string, data: Bytes, draw: nat, now: int)
    requires HonestState(r, k, s) && Inv(s)
    ensures var s' := Start(r.w, s, target, data, draw, now);
            HonestState(r, k, s') && NewPushesHonest(r, s, s', None)
  {
    SelectNeverMisses(r.w, s, target);
    match SelectRoute(r.w, s, target)
    case Via(iface) =>
      var s1 := s.(sends := s.sends + [Send(target, data, draw, Some(iface), 0, Waiting)]);
      assert HonestState(r, k, s1);
      ResumeHonest(r, k, s1, |s.sends|, now, None);
    case _ =>
  }

  lemma TickHonest(r: Realm, k: nat, s: State, now: int, clock: nat -> int)
    requires HonestState(r, k, s) && Inv(s)
    ensures var s' := Tick(r.w, s, now, clock);
            HonestState(r, k, s') && NewPushesHonest(r, s, s', None)
  {
    LooseAfterExpiry(s, now);
    var s1 := s.(waiters := Unexpired(s.waiters, now));
    assert HonestState(r, k, s1);
    ResumeAllHonest(r, k, s1, Ids(ExpiredOf(s.waiters, now)), clock, None);
  }

  lemma PurgeHonest(r: Realm, k: nat, s: State, order: seq<string>, now: int)
    requires HonestState(r, k, s) && Inv(s)
    ensures HonestState(r, k, s.(store := PurgeAlong(s.store, order, now).store))
  {
    PurgeShrinks(s.store, order, now);
    var store := PurgeAlong(s.store, order, now).store;
    forall a: string, pk: PubKey | a in store && pk in store[a]
      ensures HonestKey(r, FromString(a), pk.key)
    {
      assert pk in s.store[a];
    }
  }

  // ----- One packet, end to end -----

  /**
   * A data packet, after any number of hops, processed where some interface has its target's user and
   * domain, over an interface that has the key it was sealed for: exactly the sender's printed address
   * and the original data are pushed to the receive buffer.
   */
  lemma ArrivalDelivers(
      w: World, sender: Iface, target: string, draw: nat, data: Bytes, ttl: int,
      s: State, arrival: Iface, now: int, sorted: seq<PubKey>)
    requires Inv(s) && BlockContract(w.rsa(sender.key)) && BlockContract(w.rsa(arrival.key))
    requires exists name :: name in s.ifs && s.ifs[name].addr.username == FromString(target).username
                              && s.ifs[name].addr.domain == FromString(target).domain
    ensures var p := DataPacket(w, sender, target, arrival.key, draw, data).(ttl := ttl);
            Process(w, s, p, arrival, now, sorted).recv == s.recv + [(ToString(sender.addr), data)]
  {
    var p := DataPacket(w, sender, target, arrival.key, draw, data).(ttl := ttl);
    OpenUndoesSeal(w.rsa(sender.key), w.rsa(arrival.key), draw, data);
    var s2 := Dispatched(w, s, p, arrival, now, sorted);
    DispatchedKeeps(w, s, p, arrival, now, sorted);
    ReleaseLeaves(w, s2, ToString(p.src), now);
    assert s2.recv == s.recv + [(ToString(sender.addr), data)];
  }

  /** A hop on the way changes nothing but the time to live, and needs one to spare. */
  lemma HopForwards(w: World, s: State, p: Packet, arrival: Iface, now: int, sorted: seq<PubKey>)
    requires Inv(s) && SortChoice(w, s, p, now, sorted) && !IsToMe(s, p.dest)
    requires p.ttl > 1 && SelectRoute(w, s, ToString(p.dest)).Via?
    ensures var s' := Process(w, s, p, arrival, now, sorted);
            && s.outbox <= s'.outbox && |s'.outbox| > |s.outbox|
            && s'.outbox[|s.outbox|] == Push(SelectRoute(w, s, ToString(p.dest)).iface, p.(ttl := p.ttl - 1), Forwarded)
            && s'.recv == s.recv
  {
    var s2 := Dispatched(w, s, p, arrival, now, sorted);
    DispatchedKeeps(w, s, p, arrival, now, sorted);
    ReleaseLeaves(w, s2, ToString(p.src), now);
    PostProcessGrows(w, s2, ToString(p.src), now);
    assert s2.outbox[|s.outbox|].tag == Forwarded;
  }
}
