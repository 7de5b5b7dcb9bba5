/**
 * End to end: in a network whose interfaces carry the keys of their owners, whatever is delivered
 * was sent, by the sender it names, with the data it carries, to a target owned by its receiver.
 */
module Integrity {
  import opened Std
  import opened Cipher
  import opened KernelInvariant
  import opened KernelEffects
  import opened Honesty
  import opened Network
  import opened AtMostOnce
  import Address
  import P = Protocol

  /** Interfaces, wherever they are added or reached, belong to their kernels. */
  ghost predicate HonestEnv(r: Realm, env: Env) {
    && env.w == r.w
    && forall k: nat, name {:trigger env.wires(k, name)} ::
         env.wires(k, name).Some? ==> HonestIface(r, env.wires(k, name).value.kernel, env.wires(k, name).value.iface)
  }

  ghost predicate HonestActions(r: Realm, actions: seq<Action>) {
    forall a :: a in actions && a.AddInterface? ==> HonestIface(r, a.k, a.iface)
  }

  /** The send that made a data packet. */
  function SendOf(n: Net, id: Id): Option<P.Send> {
    if id.DataOf? && id.kernel < |n.kernels| && id.send < |n.kernels[id.kernel].sends|
    then Some(n.kernels[id.kernel].sends[id.send]) else None
  }

  /** The delivery is of a send, from the address of its interface, of its data, to its target's owner. */
  ghost predicate Genuine(r: Realm, n: Net, d: Delivery) {
    var send := SendOf(n, d.id);
    && send.Some? && send.value.iface.Some?
    && d.entry == (Address.ToString(send.value.iface.value.addr), send.value.data)
    && r.keyOf(d.kernel) == Owner(r, Address.FromString(send.value.target))
  }

  /** The packet of that identity is honest, and if it carries data, made by the send of that identity. */
  ghost predicate HonestOrigin(r: Realm, n: Net, id: Id, p: P.Packet) {
    && Accounted(r, p, SendOf(n, id))
    && (id.DataOf? ==> SendOf(n, id).Some?)
  }

  ghost predicate HonestFlight(r: Realm, n: Net, f: Flight) {
    HonestOrigin(r, n, f.id, f.packet)
  }

  ghost predicate KernelsHonest(r: Realm, n: Net) {
    forall k {:trigger n.kernels[k]} :: 0 <= k < |n.kernels| ==> HonestState(r, k, n.kernels[k])
  }

  ghost predicate Sound(r: Realm, n: Net) {
    && KernelsOk(n) && KernelsHonest(r, n)
    && (forall f :: f in n.flights ==> HonestFlight(r, n, f))
    && (forall d :: d in n.log ==> Genuine(r, n, d))
  }

  /** Sends are never altered, so what was true of a packet's origin stays true. */
  lemma OriginStays(n: Net, k: nat, s: P.State, via: Option<Id>, id: Id)
    requires k < |n.kernels| && Grows(n.kernels[k], s)
    requires SendOf(n, id).Some?
    ensures var n' := Absorb(n, k, s, via);
            SendOf(n', id).Some? && SameSend(SendOf(n, id).value, SendOf(n', id).value)
  {
    if id.kernel == k {
      assert SameSend(n.kernels[k].sends[id.send], s.sends[id.send]);
    }
  }

  lemma FlightStays(r: Realm, n: Net, k: nat, s: P.State, via: Option<Id>, f: Flight)
    requires k < |n.kernels| && Grows(n.kernels[k], s) && HonestFlight(r, n, f)
    ensures HonestFlight(r, Absorb(n, k, s, via), f)
  {
    if f.id.DataOf? {
      OriginStays(n, k, s, via, f.id);
    }
  }

  lemma DeliveryStays(r: Realm, n: Net, k: nat, s: P.State, via: Option<Id>, d: Delivery)
    requires k < |n.kernels| && Grows(n.kernels[k], s) && Genuine(r, n, d)
    ensures Genuine(r, Absorb(n, k, s, via), d)
  {
    OriginStays(n, k, s, via, d.id);
  }

  /** One flight begun by an honest push is honest. */
  lemma LaunchOne(r: Realm, n: Net, k: nat, push: P.Push, via: Option<Id>, p: Option<P.Packet>, m: nat)
    requires k < |n.kernels| && HonestPush(r, n.kernels[k], p, push)
    requires p.Some? ==> via.Some? && HonestOrigin(r, n, via.value, p.value)
    ensures HonestFlight(r, n, Flight(IdOf(k, push, via, m), k, push.iface, push.packet))
  {
  }

  lemma {:induction false} LaunchHonest(
      r: Realm, n: Net, k: nat, pushes: seq<P.Push>, via: Option<Id>, p: Option<P.Packet>, m: nat)
    requires k < |n.kernels|
    requires forall push :: push in pushes ==> HonestPush(r, n.kernels[k], p, push)
    requires p.Some? ==> via.Some? && HonestOrigin(r, n, via.value, p.value)
    ensures forall f :: f in Launch(k, pushes, via, m) ==> HonestFlight(r, n, f)
    decreases |pushes|
  {
    if pushes != [] {
      LaunchOne(r, n, k, pushes[0], via, p, m);
      LaunchHonest(r, n, k, pushes[1..], via, p, m + 1);
    }
  }

  /** What a step must have established for its outcome to be absorbed. */
  ghost predicate HonestMove(r: Realm, n: Net, k: nat, s: P.State, via: Option<Id>, p: Option<P.Packet>)
    requires k < |n.kernels|
  {
    && Inv(s) && Grows(n.kernels[k], s) && HonestState(r, k, s)
    && NewPushesHonest(r, n.kernels[k], s, p)
    && (p.Some? <==> via.Some?)
    && (p.Some? ==> HonestOrigin(r, n, via.value, p.value))
    && ReceivesOnly(r, k, n.kernels[k], s, if via.Some? then SendOf(n, via.value) else None)
  }

  lemma AbsorbFlights(r: Realm, n: Net, k: nat, s: P.State, via: Option<Id>, p: Option<P.Packet>)
    requires Sound(r, n) && k < |n.kernels| && HonestMove(r, n, k, s, via, p)
    ensures forall f :: f in Absorb(n, k, s, via).flights ==> HonestFlight(r, Absorb(n, k, s, via), f)
  {
    var n', was := Absorb(n, k, s, via), n.kernels[k].outbox;
    var pushes := s.outbox[|was|..];
    forall push | push in pushes
      ensures HonestPush(r, n'.kernels[k], p, push)
    {
      var j :| 0 <= j < |pushes| && pushes[j] == push;
      assert s.outbox[|was| + j] == push;
    }
    if via.Some? && SendOf(n, via.value).Some? {
      OriginStays(n, k, s, via, via.value);
    }
    if via.Some? {
      assert Accounted(r, p.value, SendOf(n', via.value));
    }
    LaunchHonest(r, n', k, pushes, via, p, n.next);
    forall f | f in n'.flights
      ensures HonestFlight(r, n', f)
    {
      if f in n.flights {
        FlightStays(r, n, k, s, via, f);
      }
    }
  }

  lemma AbsorbLog(r: Realm, n: Net, k: nat, s: P.State, via: Option<Id>, p: Option<P.Packet>)
    requires Sound(r, n) && k < |n.kernels| && HonestMove(r, n, k, s, via, p)
    ensures var n' := Absorb(n, k, s, via); forall d :: d in n'.log ==> Genuine(r, n', d)
  {
    var n', entries := Absorb(n, k, s, via), s.recv[|n.kernels[k].recv|..];
    assert s.recv == n.kernels[k].recv + entries;
    forall d | d in n'.log
      ensures Genuine(r, n', d)
    {
      if d in n.log {
        DeliveryStays(r, n, k, s, via, d);
      } else {
        DeliverEntries(k, entries, via.value, k);
        OriginStays(n, k, s, via, via.value);
      }
    }
  }

  lemma AbsorbSound(r: Realm, n: Net, k: nat, s: P.State, via: Option<Id>, p: Option<P.Packet>)
    requires Sound(r, n) && k < |n.kernels| && HonestMove(r, n, k, s, via, p)
    ensures Sound(r, Absorb(n, k, s, via))
  {
    AbsorbFlights(r, n, k, s, via, p);
    AbsorbLog(r, n, k, s, via, p);
  }

  /** The packet that a step processes. */
  ghost function Incoming(env: Env, n: Net, a: Action): Option<P.Packet>
    requires Enabled(env, n, a)
  {
    if a.Receive? then Some(n.flights[a.i].packet) else None
  }

  lemma ReceivedHonest(r: Realm, env: Env, n: Net, a: Action)
    requires Sound(r, n) && HonestEnv(r, env) && Enabled(env, n, a) && a.Receive?
    ensures HonestMove(r, n, Actor(env, n, a), Moved(env, n, a), Via(n, a), Incoming(env, n, a))
  {
    MovedKeeps(env, n, a);
    var k, f, port := Actor(env, n, a), n.flights[a.i], Destination(env, n, a.i).value;
    assert Inv(n.kernels[k]) && HonestState(r, k, n.kernels[k]) && HonestFlight(r, n, f);
    ProcessHonest(r, k, n.kernels[k], f.packet, port.iface, a.now, a.sorted, SendOf(n, f.id));
  }

  lemma StartedHonest(r: Realm, k: nat, s: P.State, target: string, data: Bytes, draw: nat, now: int)
    requires HonestState(r, k, s) && Inv(s)
    ensures var s' := P.Start(r.w, s, target, data, draw, now);
            HonestState(r, k, s') && NewPushesHonest(r, s, s', None) && s'.recv == s.recv
  {
    StartHonest(r, k, s, target, data, draw, now);
    StartForwardsNothing(r.w, s, target, data, draw, now);
  }

  lemma TickedHonest(r: Realm, k: nat, s: P.State, now: int, clock: nat -> int)
    requires HonestState(r, k, s) && Inv(s)
    ensures var s' := P.Tick(r.w, s, now, clock);
            HonestState(r, k, s') && NewPushesHonest(r, s, s', None) && s'.recv == s.recv
  {
    TickHonest(r, k, s, now, clock);
    ResumesForwardNothing(r.w, s.(waiters := P.Unexpired(s.waiters, now)), P.Ids(P.ExpiredOf(s.waiters, now)), clock);
  }

  lemma MovedHonest(r: Realm, env: Env, n: Net, a: Action)
    requires Sound(r, n) && HonestEnv(r, env) && Enabled(env, n, a) && !a.Lose? && !a.Receive?
    requires a.AddInterface? ==> HonestIface(r, a.k, a.iface)
    ensures HonestMove(r, n, Actor(env, n, a), Moved(env, n, a), None, None)
  {
    MovedKeeps(env, n, a);
    var k := a.k;
    var s := n.kernels[k];
    assert Inv(s) && HonestState(r, k, s);
    match a {
      case Send(_, target, data, draw, now) => StartedHonest(r, k, s, target, data, draw, now);
      case Tick(_, now, clock) => TickedHonest(r, k, s, now, clock);
      case Purge(_, order, now) => PurgeHonest(r, k, s, order, now);
      case Written(_, i) => WrittenHonest(r, k, s, i);
      case _ => AdministrationHonest(r, env, n, a);
    }
  }

  lemma WrittenHonest(r: Realm, k: nat, s: P.State, i: nat)
    requires HonestState(r, k, s)
    ensures var s' := P.WriteCompleted(s, i);
            HonestState(r, k, s') && s'.outbox == s.outbox && s'.recv == s.recv
  {
  }

  lemma AdministrationHonest(r: Realm, env: Env, n: Net, a: Action)
    requires Sound(r, n) && Enabled(env, n, a) && (a.AddInterface? || a.AddRoute? || a.RemoveInterface?)
    requires a.AddInterface? ==> HonestIface(r, a.k, a.iface)
    ensures var s, s' := n.kernels[a.k], Moved(env, n, a);
            HonestState(r, a.k, s') && s'.outbox == s.outbox && s'.recv == s.recv
  {
    assert HonestState(r, a.k, n.kernels[a.k]);
  }

  lemma BeforeSound(r: Realm, env: Env, n: Net, a: Action)
    requires Sound(r, n) && Enabled(env, n, a)
    ensures Sound(r, Before(env, n, a))
  {
    var n' := Before(env, n, a);
    forall f | f in n'.flights
      ensures HonestFlight(r, n', f)
    {
      assert f in n.flights;
      assert SendOf(n', f.id) == SendOf(n, f.id);
    }
    forall d | d in n'.log
      ensures Genuine(r, n', d)
    {
      assert SendOf(n', d.id) == SendOf(n, d.id);
    }
  }

  lemma StepSound(r: Realm, env: Env, n: Net, a: Action)
    requires Sound(r, n) && HonestEnv(r, env)
    requires a.AddInterface? ==> HonestIface(r, a.k, a.iface)
    ensures Sound(r, Step(env, n, a))
  {
    if Enabled(env, n, a) {
      var mid := Before(env, n, a);
      BeforeSound(r, env, n, a);
      if !a.Lose? {
        if a.Receive? {
          ReceivedHonest(r, env, n, a);
        } else {
          MovedHonest(r, env, n, a);
        }
        var via := Via(n, a);
        assert via.Some? ==> SendOf(mid, via.value) == SendOf(n, via.value);
        AbsorbSound(r, mid, Actor(env, n, a), Moved(env, n, a), via, Incoming(env, n, a));
      }
    }
  }

  lemma {:induction false} RunSound(r: Realm, env: Env, n: Net, actions: seq<Action>)
    requires Sound(r, n) && HonestEnv(r, env) && HonestActions(r, actions)
    ensures Sound(r, Run(env, n, actions))
    decreases |actions|
  {
    if actions != [] {
      assert actions[0] in actions;
      StepKeepsKernels(env, n, actions[0]);
      StepSound(r, env, n, actions[0]);
      assert HonestActions(r, actions[1..]);
      RunSound(r, env, Step(env, n, actions[0]), actions[1..]);
    }
  }

  /**
   * End-to-end delivery over any run, any number of hops, and any loss or reordering: no kernel ever
   * throws, each receive buffer is the deliveries made to its kernel, and each delivery is genuine.
   */
  lemma DeliveredAsSent(r: Realm, env: Env, count: nat, actions: seq<Action>)
    requires HonestEnv(r, env) && HonestActions(r, actions)
    ensures var n := Run(env, Initial(count), actions);
            && (forall d :: d in n.log ==> Genuine(r, n, d))
            && (forall k {:trigger n.kernels[k]} :: 0 <= k < |n.kernels| ==>
                  !n.kernels[k].faulted && n.kernels[k].recv == Entries(n.log, k))
  {
    RunSound(r, env, Initial(count), actions);
    RunKeepsLogged(env, Initial(count), actions);
    var n := Run(env, Initial(count), actions);
    assert KernelsHonest(r, n) && Logged(n);
  }
}
