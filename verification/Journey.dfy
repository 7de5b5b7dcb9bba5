/**
 * A packet with data reaches the owner of its target. As long as the routes lead it there and it is not
 * lost, every run, whatever else happens in the network, only brings it nearer: each time it is processed
 * it is one hop further, and behind the last hop it is delivered.
 */
module Journey {
  import opened Std
  import opened KernelInvariant
  import opened KernelEffects
  import opened Honesty
  import opened Network
  import opened AtMostOnce
  import opened Integrity
  import Address
  import Cipher
  import KeyStore
  import P = Protocol

  // ----- Arrival -----

  /** What the receive buffer gets from a send. */
  function EntryOf(send: P.Send): (string, Cipher.Bytes)
    requires send.iface.Some?
  {
    (Address.ToString(send.iface.value.addr), send.data)
  }

  /** Any data packet in flight in an honest network that reaches its destination is delivered. */
  lemma ArrivalIsDelivered(r: Realm, env: Env, n: Net, a: Action)
    requires Sound(r, n) && HonestEnv(r, env) && Enabled(env, n, a) && a.Receive?
    requires n.flights[a.i].id.DataOf? && P.IsToMe(n.kernels[Actor(env, n, a)], n.flights[a.i].packet.dest)
    ensures var f, k := n.flights[a.i], Actor(env, n, a);
            var send := SendOf(n, f.id);
            && send.Some? && send.value.iface.Some?
            && Step(env, n, a).log == n.log + [Delivery(f.id, k, EntryOf(send.value))]
  {
    var f, k, arrival := n.flights[a.i], Actor(env, n, a), Destination(env, n, a.i).value.iface;
    var s := n.kernels[k];
    assert Inv(s) && HonestState(r, k, s) && HonestFlight(r, n, f);
    var send := SendOf(n, f.id).value;
    DataOpens(r, k, s, send, f.packet, arrival);
    ArrivalReceives(r, s, f.packet, arrival, a.now, a.sorted, send);
    MovedKeeps(env, n, a);
    AbsorbDelivers(Before(env, n, a), k, Moved(env, n, a), f.id, EntryOf(send));
  }

  lemma AbsorbDelivers(n: Net, k: nat, s: P.State, x: Id, entry: (string, Cipher.Bytes))
    requires k < |n.kernels| && n.kernels[k].outbox <= s.outbox && s.recv == n.kernels[k].recv + [entry]
    ensures Absorb(n, k, s, Some(x)).log == n.log + [Delivery(x, k, entry)]
  {
    var entries := s.recv[|n.kernels[k].recv|..];
    assert entries == [entry] && entries[1..] == [];
    assert Deliver(k, entries, x) == [Delivery(x, k, entry)] + Deliver(k, entries[1..], x);
  }

  lemma ArrivalReceives(
      r: Realm, s: P.State, p: P.Packet, arrival: P.Iface, now: int, sorted: seq<KeyStore.PubKey>, send: P.Send)
    requires Inv(s) && SortChoice(r.w, s, p, now, sorted) && P.IsToMe(s, p.dest) && send.iface.Some?
    requires p.kind.Avim? && p.publickey.Some? && p.payload.Some? && p.src == send.iface.value.addr
    requires Cipher.Open(r.w.rsa(p.publickey.value), r.w.rsa(arrival.key), p.payload.value) == Some(send.data)
    ensures P.Process(r.w, s, p, arrival, now, sorted).recv == s.recv + [EntryOf(send)]
  {
    DispatchedKeeps(r.w, s, p, arrival, now, sorted);
    ReleaseLeaves(r.w, Dispatched(r.w, s, p, arrival, now, sorted), Address.ToString(p.src), now);
  }

  /**
   * Over any run of an honest network: whenever a data packet is processed where its destination is
   * local, the next delivery is that of its send's data under the printed address of its sender.
   */
  lemma DeliveredOnArrival(r: Realm, env: Env, count: nat, actions: seq<Action>, a: Action)
    requires HonestEnv(r, env) && HonestActions(r, actions)
    requires var n := Run(env, Initial(count), actions);
             && Enabled(env, n, a) && a.Receive? && n.flights[a.i].id.DataOf?
             && P.IsToMe(n.kernels[Actor(env, n, a)], n.flights[a.i].packet.dest)
    ensures var n := Run(env, Initial(count), actions);
            var send := SendOf(n, n.flights[a.i].id);
            && send.Some? && send.value.iface.Some?
            && Run(env, Initial(count), actions + [a]).log ==
               n.log + [Delivery(n.flights[a.i].id, Actor(env, n, a), EntryOf(send.value))]
  {
    RunSound(r, env, Initial(count), actions);
    ArrivalIsDelivered(r, env, Run(env, Initial(count), actions), a);
    RunOneMore(env, Initial(count), actions, a);
  }

  lemma {:induction false} RunOneMore(env: Env, n: Net, actions: seq<Action>, a: Action)
    requires KernelsOk(n)
    ensures KernelsOk(Run(env, n, actions)) && Run(env, n, actions + [a]) == Step(env, Run(env, n, actions), a)
    decreases |actions|
  {
    RunKeepsKernels(env, n, actions);
    if actions == [] {
      StepKeepsKernels(env, n, a);
      assert [a][1..] == [];
    } else {
      StepKeepsKernels(env, n, actions[0]);
      assert (actions + [a])[1..] == actions[1..] + [a];
      RunOneMore(env, Step(env, n, actions[0]), actions[1..], a);
    }
  }

  // ----- The way there -----

  /** Where kernel `k` in state `s` passes packets for `dest` on to. */
  function Hop(env: Env, s: P.State, k: nat, dest: Address.Address): Option<Port> {
    match P.SelectRoute(env.w, s, Address.ToString(dest))
    case Via(iface) => env.wires(k, iface.name)
    case _ => None
  }

  /** From `port` the routes lead over exactly `hops` more links to a kernel of which `dest` is an address. */
  predicate Leads(env: Env, kernels: seq<P.State>, port: Option<Port>, dest: Address.Address, hops: nat)
    decreases hops
  {
    && port.Some? && port.value.kernel < |kernels|
    && var s := kernels[port.value.kernel];
       if P.IsToMe(s, dest) then hops == 0
       else hops > 0 && Leads(env, kernels, Hop(env, s, port.value.kernel, dest), dest, hops - 1)
  }

  predicate SameRouting(before: seq<P.State>, after: seq<P.State>) {
    |after| == |before| &&
    forall k {:trigger after[k]} :: 0 <= k < |before| ==> SameTables(before[k], after[k])
  }

  lemma {:induction false} LeadsFrame(
      env: Env, before: seq<P.State>, after: seq<P.State>, port: Option<Port>, dest: Address.Address, hops: nat)
    requires SameRouting(before, after) && Leads(env, before, port, dest, hops)
    ensures Leads(env, after, port, dest, hops)
    decreases hops
  {
    var s, s' := before[port.value.kernel], after[port.value.kernel];
    assert SameTables(s, s');
    if hops > 0 {
      LeadsFrame(env, before, after, Hop(env, s, port.value.kernel, dest), dest, hops - 1);
    }
  }

  /** The flight is `hops` links away from its destination, and has the time to live for them. */
  predicate Bound(env: Env, kernels: seq<P.State>, f: Flight, hops: nat) {
    && Leads(env, kernels, env.wires(f.kernel, f.iface.name), f.packet.dest, hops)
    && (hops == 0 || hops < f.packet.ttl)
  }

  ghost predicate OnCourse(env: Env, n: Net, x: Id, hops: nat) {
    exists f :: f in n.flights && f.id == x && Bound(env, n.kernels, f, hops)
  }

  ghost predicate Delivered(n: Net, x: Id) {
    exists d :: d in n.log && d.id == x
  }

  /** The action processes packet `x`. */
  ghost predicate Handles(env: Env, n: Net, a: Action, x: Id) {
    a.Receive? && Enabled(env, n, a) && n.flights[a.i].id == x
  }

  predicate Administers(a: Action) {
    a.AddInterface? || a.AddRoute? || a.RemoveInterface?
  }

  /** Wherever packet `x` is in flight in `n`, the routes of `n'` lead to its destination if those of `n` do. */
  ghost predicate KeepsCourse(env: Env, n: Net, n': Net, x: Id) {
    forall f, hops: nat ::
      f in n.flights && f.id == x && Leads(env, n.kernels, env.wires(f.kernel, f.iface.name), f.packet.dest, hops) ==>
        Leads(env, n'.kernels, env.wires(f.kernel, f.iface.name), f.packet.dest, hops)
  }

  /** The action does not lose packet `x`, and does not divert it by a change of routes or interfaces. */
  ghost predicate Spares(env: Env, n: Net, a: Action, x: Id)
    requires KernelsOk(n)
  {
    && (a.Lose? && a.i < |n.flights| ==> n.flights[a.i].id != x)
    && (Administers(a) ==> KeepsCourse(env, n, Step(env, n, a), x))
  }

  /** The kernels on the way. */
  function Course(env: Env, kernels: seq<P.State>, port: Option<Port>, dest: Address.Address, hops: nat): set<nat>
    decreases hops
  {
    if port.None? || port.value.kernel >= |kernels| then {}
    else
      var k := port.value.kernel;
      {k} + if hops == 0 then {} else Course(env, kernels, Hop(env, kernels[k], k, dest), dest, hops - 1)
  }

  /** Tables matter only on the way. */
  lemma {:induction false} OffCourse(
      env: Env, before: seq<P.State>, after: seq<P.State>, port: Option<Port>, dest: Address.Address, hops: nat)
    requires |after| == |before| && Leads(env, before, port, dest, hops)
    requires forall k {:trigger after[k]} ::
               0 <= k < |before| && k in Course(env, before, port, dest, hops) ==> SameTables(before[k], after[k])
    ensures Leads(env, after, port, dest, hops)
    decreases hops
  {
    var k := port.value.kernel;
    assert SameTables(before[k], after[k]);
    if hops > 0 {
      OffCourse(env, before, after, Hop(env, before[k], k, dest), dest, hops - 1);
    }
  }

  /** Administration of kernels off the packet's way does not divert it. */
  lemma ElsewhereSpares(env: Env, n: Net, a: Action, x: Id)
    requires KernelsOk(n) && Administers(a)
    requires forall f, hops: nat ::
               f in n.flights && f.id == x
               && Leads(env, n.kernels, env.wires(f.kernel, f.iface.name), f.packet.dest, hops) ==>
                 a.k !in Course(env, n.kernels, env.wires(f.kernel, f.iface.name), f.packet.dest, hops)
    ensures Spares(env, n, a, x)
  {
    var n' := Step(env, n, a);
    forall f, hops: nat | f in n.flights && f.id == x
                          && Leads(env, n.kernels, env.wires(f.kernel, f.iface.name), f.packet.dest, hops)
      ensures Leads(env, n'.kernels, env.wires(f.kernel, f.iface.name), f.packet.dest, hops)
    {
      OnlyThere(env, n, a);
      OffCourse(env, n.kernels, n'.kernels, env.wires(f.kernel, f.iface.name), f.packet.dest, hops);
    }
  }

  lemma OnlyThere(env: Env, n: Net, a: Action)
    requires KernelsOk(n) && Administers(a)
    ensures var n' := Step(env, n, a);
            |n'.kernels| == |n.kernels| &&
            forall k {:trigger n'.kernels[k]} :: 0 <= k < |n.kernels| && k != a.k ==> n'.kernels[k] == n.kernels[k]
  {
    if Enabled(env, n, a) {
      MovedKeeps(env, n, a);
    }
  }

  lemma SameFlight(n: Net, f: Flight, i: nat)
    requires OnePlace(n) && f in n.flights && i < |n.flights| && n.flights[i].id == f.id
    ensures n.flights[i] == f
  {
    var j: nat :| j < |n.flights| && n.flights[j] == f;
    var ids := FlightIds(n.flights) + LogIds(n.log);
    NothingTwice(n);
    FlightIdAt(n.flights, i);
    FlightIdAt(n.flights, j);
    assert ids[i] == ids[j];
    if i < j {
      DistinctAt(ids, i, j);
    } else if j < i {
      DistinctAt(ids, j, i);
    }
  }

  lemma {:induction false} FlightIdAt(flights: seq<Flight>, i: nat)
    requires i < |flights|
    ensures FlightIds(flights)[i] == flights[i].id
    decreases |flights|
  {
    if i > 0 {
      FlightIdAt(flights[1..], i - 1);
    }
  }

  lemma MovedKeepsTables(env: Env, n: Net, a: Action)
    requires Enabled(env, n, a) && !a.Lose? && !Administers(a)
    ensures SameTables(n.kernels[Actor(env, n, a)], Moved(env, n, a))
  {
    var s := n.kernels[Actor(env, n, a)];
    match a {
      case Send(k, target, data, draw, now) => StartKeepsOutside(env.w, s, target, data, draw, now);
      case Receive(i, now, sorted) =>
        ProcessKeepsOutside(env.w, s, n.flights[i].packet, Destination(env, n, i).value.iface, now, sorted);
      case Tick(k, now, clock) => TickKeepsOutside(env.w, s, now, clock);
      case _ =>
    }
  }

  lemma StepKeepsRouting(env: Env, n: Net, a: Action)
    requires KernelsOk(n) && !Administers(a)
    ensures SameRouting(n.kernels, Step(env, n, a).kernels)
  {
    if Enabled(env, n, a) && !a.Lose? {
      MovedKeeps(env, n, a);
      MovedKeepsTables(env, n, a);
    }
  }

  /** A packet that the action neither processes nor loses stays in flight. */
  lemma OthersStay(env: Env, n: Net, a: Action, f: Flight)
    requires KernelsOk(n) && f in n.flights
    requires (a.Receive? || a.Lose?) && Enabled(env, n, a) ==> n.flights[a.i] != f
    ensures f in Step(env, n, a).flights
  {
    if Enabled(env, n, a) {
      if a.Receive? || a.Lose? {
        SplitAt(n.flights, a.i);
        assert f in RemoveAt(n.flights, a.i);
      }
      if !a.Lose? {
        MovedKeeps(env, n, a);
      }
    }
  }

  /** The flight that kernel `k` makes of `f` on interface `iface`. */
  function Onward(f: Flight, k: nat, iface: P.Iface): Flight {
    Flight(f.id, k, iface, f.packet.(ttl := f.packet.ttl - 1))
  }

  /** Short of the destination there is a route, and behind it one link less to go. */
  lemma HopIsRouted(env: Env, kernels: seq<P.State>, f: Flight, hops: nat)
    requires Bound(env, kernels, f, hops) && hops > 0
    ensures var k := env.wires(f.kernel, f.iface.name).value.kernel;
            var selected := P.SelectRoute(env.w, kernels[k], Address.ToString(f.packet.dest));
            && !P.IsToMe(kernels[k], f.packet.dest) && selected.Via? && f.packet.ttl > 1
            && Bound(env, kernels, Onward(f, k, selected.iface), hops - 1)
  {
    var k, dest := env.wires(f.kernel, f.iface.name).value.kernel, f.packet.dest;
    var next := Hop(env, kernels[k], k, dest);
    assert Leads(env, kernels, next, dest, hops - 1);
  }

  lemma AbsorbLaunches(n: Net, k: nat, s: P.State, via: Option<Id>, push: P.Push)
    requires k < |n.kernels| && n.kernels[k].recv <= s.recv && n.kernels[k].outbox <= s.outbox
    requires |s.outbox| > |n.kernels[k].outbox| && s.outbox[|n.kernels[k].outbox|] == push
    ensures Flight(IdOf(k, push, via, n.next), k, push.iface, push.packet) in Absorb(n, k, s, via).flights
  {
    var pushes := s.outbox[|n.kernels[k].outbox|..];
    assert pushes[0] == push;
    var first := Flight(IdOf(k, push, via, n.next), k, push.iface, push.packet);
    assert Launch(k, pushes, via, n.next)[0] == first;
    assert first in Launch(k, pushes, via, n.next);
  }

  /** A forwarded packet is in flight again from the kernel that has processed it. */
  lemma HopInFlight(env: Env, n: Net, a: Action, f: Flight, iface: P.Iface)
    requires KernelsOk(n) && a.Receive? && Enabled(env, n, a) && n.flights[a.i] == f && f.packet.ttl > 1
    requires var s := n.kernels[Actor(env, n, a)];
             !P.IsToMe(s, f.packet.dest) && P.SelectRoute(env.w, s, Address.ToString(f.packet.dest)) == P.Via(iface)
    ensures Onward(f, Actor(env, n, a), iface) in Step(env, n, a).flights
  {
    var k, port := Actor(env, n, a), Destination(env, n, a.i).value;
    var s, s' := n.kernels[k], Moved(env, n, a);
    assert Inv(s);
    HopForwards(env.w, s, f.packet, port.iface, a.now, a.sorted);
    MovedKeeps(env, n, a);
    var push := P.Push(iface, f.packet.(ttl := f.packet.ttl - 1), P.Forwarded);
    AbsorbLaunches(Before(env, n, a), k, s', Some(f.id), push);
  }

  lemma NowOnCourse(env: Env, kernels: seq<P.State>, n: Net, f: Flight, hops: nat)
    requires SameRouting(kernels, n.kernels) && f in n.flights && Bound(env, kernels, f, hops)
    ensures OnCourse(env, n, f.id, hops)
  {
    LeadsFrame(env, kernels, n.kernels, env.wires(f.kernel, f.iface.name), f.packet.dest, hops);
  }

  lemma HopSelects(env: Env, n: Net, a: Action, f: Flight, hops: nat) returns (iface: P.Iface)
    requires a.Receive? && Enabled(env, n, a) && n.flights[a.i] == f
    requires Bound(env, n.kernels, f, hops) && hops > 0
    ensures var s := n.kernels[Actor(env, n, a)];
            && !P.IsToMe(s, f.packet.dest) && f.packet.ttl > 1
            && P.SelectRoute(env.w, s, Address.ToString(f.packet.dest)) == P.Via(iface)
            && Bound(env, n.kernels, Onward(f, Actor(env, n, a), iface), hops - 1)
  {
    HopIsRouted(env, n.kernels, f, hops);
    iface := P.SelectRoute(env.w, n.kernels[Actor(env, n, a)], Address.ToString(f.packet.dest)).iface;
  }

  /** What is in flight and on its course before a step is on its course after it, if in flight then. */
  lemma StillOnCourse(env: Env, n: Net, a: Action, f: Flight, hops: nat)
    requires KernelsOk(n) && Bound(env, n.kernels, f, hops) && f in Step(env, n, a).flights
    requires Administers(a) ==> f in n.flights && KeepsCourse(env, n, Step(env, n, a), f.id)
    ensures OnCourse(env, Step(env, n, a), f.id, hops)
  {
    if Administers(a) {
      assert Bound(env, Step(env, n, a).kernels, f, hops);
    } else {
      StepKeepsRouting(env, n, a);
      NowOnCourse(env, n.kernels, Step(env, n, a), f, hops);
    }
  }

  /** Processed on the way, the packet is in flight again, on the link that the route names. */
  lemma HopLaunches(env: Env, n: Net, a: Action, f: Flight, hops: nat)
    requires KernelsOk(n) && a.Receive? && Enabled(env, n, a) && n.flights[a.i] == f
    requires Bound(env, n.kernels, f, hops) && hops > 0
    ensures OnCourse(env, Step(env, n, a), f.id, hops - 1)
  {
    var iface := HopSelects(env, n, a, f, hops);
    HopInFlight(env, n, a, f, iface);
    StillOnCourse(env, n, a, Onward(f, Actor(env, n, a), iface), hops - 1);
  }

  /** One step, whatever it is: a packet short of its destination comes a hop nearer if it is processed. */
  lemma StepCarries(env: Env, n: Net, a: Action, x: Id, hops: nat)
    requires KernelsOk(n) && OnePlace(n) && OnCourse(env, n, x, hops) && Spares(env, n, a, x)
    requires Handles(env, n, a, x) ==> hops > 0
    ensures OnCourse(env, Step(env, n, a), x, if Handles(env, n, a, x) then hops - 1 else hops)
  {
    var f :| f in n.flights && f.id == x && Bound(env, n.kernels, f, hops);
    if Handles(env, n, a, x) {
      SameFlight(n, f, a.i);
      HopLaunches(env, n, a, f, hops);
    } else {
      OthersStay(env, n, a, f);
      StillOnCourse(env, n, a, f, hops);
    }
  }

  /** A data packet at its destination is delivered. */
  lemma StepOnCourse(r: Realm, env: Env, n: Net, a: Action, x: Id, hops: nat)
    requires Sound(r, n) && OnePlace(n) && HonestEnv(r, env) && x.DataOf?
    requires OnCourse(env, n, x, hops) && Spares(env, n, a, x)
    ensures var n' := Step(env, n, a);
            if !Handles(env, n, a, x) then OnCourse(env, n', x, hops)
            else if hops > 0 then OnCourse(env, n', x, hops - 1)
            else Delivered(n', x)
  {
    if Handles(env, n, a, x) && hops == 0 {
      var f :| f in n.flights && f.id == x && Bound(env, n.kernels, f, hops);
      SameFlight(n, f, a.i);
      ArrivalIsDelivered(r, env, n, a);
      assert Step(env, n, a).log[|n.log|].id == x;
    } else {
      StepCarries(env, n, a, x, hops);
    }
  }

  lemma DeliveredStays(env: Env, n: Net, a: Action, x: Id)
    requires KernelsOk(n) && Delivered(n, x)
    ensures Delivered(Step(env, n, a), x)
  {
    var d :| d in n.log && d.id == x;
    if Enabled(env, n, a) && !a.Lose? {
      MovedKeeps(env, n, a);
    }
    assert d in Step(env, n, a).log;
  }

  /** An honest run from the start leads to this network. */
  ghost predicate Reached(r: Realm, env: Env, n: Net) {
    exists count: nat, actions {:trigger Run(env, Initial(count), actions)} ::
      HonestActions(r, actions) && n == Run(env, Initial(count), actions)
  }

  lemma ReachedIsSound(r: Realm, env: Env, n: Net)
    requires HonestEnv(r, env) && Reached(r, env, n)
    ensures Sound(r, n) && OnePlace(n)
  {
    var count: nat, actions :| HonestActions(r, actions) && n == Run(env, Initial(count), actions);
    RunSound(r, env, Initial(count), actions);
    RunKeepsOnePlace(env, Initial(count), actions);
  }

  lemma ReachedStep(r: Realm, env: Env, n: Net, a: Action)
    requires Reached(r, env, n) && KernelsOk(n) && (a.AddInterface? ==> HonestIface(r, a.k, a.iface))
    ensures Reached(r, env, Step(env, n, a))
  {
    var count: nat, actions :| HonestActions(r, actions) && n == Run(env, Initial(count), actions);
    RunOneMore(env, Initial(count), actions, a);
    assert HonestActions(r, actions + [a]);
    assert Step(env, n, a) == Run(env, Initial(count), actions + [a]);
  }

  /** The links still to go, less than none once the packet has been delivered. */
  ghost function Left(env: Env, n: Net, a: Action, x: Id, hops: int): int {
    if Handles(env, n, a, x) then hops - 1 else hops
  }

  ghost predicate Progress(env: Env, n: Net, x: Id, hops: int) {
    if hops >= 0 then OnCourse(env, n, x, hops) else Delivered(n, x)
  }

  lemma StepProgresses(r: Realm, env: Env, n: Net, a: Action, x: Id, hops: int)
    requires HonestEnv(r, env) && Reached(r, env, n) && KernelsOk(n)
    requires x.DataOf? && Progress(env, n, x, hops) && Spares(env, n, a, x)
    ensures Progress(env, Step(env, n, a), x, Left(env, n, a, x, hops))
  {
    if hops >= 0 {
      ReachedIsSound(r, env, n);
      StepOnCourse(r, env, n, a, x, hops);
    } else {
      DeliveredStays(env, n, a, x);
    }
  }

  ghost predicate RunSpares(env: Env, n: Net, actions: seq<Action>, x: Id)
    requires KernelsOk(n)
    decreases |actions|
  {
    actions == [] || (
      StepKeepsKernels(env, n, actions[0]);
      Spares(env, n, actions[0], x) && RunSpares(env, Step(env, n, actions[0]), actions[1..], x))
  }

  /** How often a run processes packet `x`. */
  ghost function Handlings(env: Env, n: Net, actions: seq<Action>, x: Id): nat
    requires KernelsOk(n)
    decreases |actions|
  {
    if actions == [] then 0
    else
      StepKeepsKernels(env, n, actions[0]);
      (if Handles(env, n, actions[0], x) then 1 else 0) + Handlings(env, Step(env, n, actions[0]), actions[1..], x)
  }

  lemma FirstCounts(env: Env, n: Net, actions: seq<Action>, x: Id, hops: int)
    requires KernelsOk(n) && actions != [] && KernelsOk(Step(env, n, actions[0]))
    ensures hops - Handlings(env, n, actions, x) ==
            Left(env, n, actions[0], x, hops) - Handlings(env, Step(env, n, actions[0]), actions[1..], x)
  {
  }

  lemma {:induction false} RunProgresses(
      r: Realm, env: Env, n: Net, actions: seq<Action>, x: Id, hops: int, left: int)
    requires HonestEnv(r, env) && Reached(r, env, n) && KernelsOk(n)
    requires x.DataOf? && Progress(env, n, x, hops) && RunSpares(env, n, actions, x)
    requires HonestActions(r, actions) && left == hops - Handlings(env, n, actions, x)
    ensures Progress(env, Run(env, n, actions), x, left)
    decreases |actions|
  {
    if actions != [] {
      StepKeepsKernels(env, n, actions[0]);
      FirstCounts(env, n, actions, x, hops);
      StepProgresses(r, env, n, actions[0], x, hops);
      assert actions[0] in actions;
      ReachedStep(r, env, n, actions[0]);
      RunProgresses(r, env, Step(env, n, actions[0]), actions[1..], x, Left(env, n, actions[0], x, hops), left);
    }
  }

  lemma {:induction false} RunReached(r: Realm, env: Env, n: Net, actions: seq<Action>)
    requires Reached(r, env, n) && KernelsOk(n) && HonestActions(r, actions)
    ensures Reached(r, env, Run(env, n, actions))
    decreases |actions|
  {
    if actions != [] {
      StepKeepsKernels(env, n, actions[0]);
      assert actions[0] in actions;
      ReachedStep(r, env, n, actions[0]);
      RunReached(r, env, Step(env, n, actions[0]), actions[1..]);
    }
  }

  /** The packet of a send to `target` by kernel `k` of the network, over `iface`. */
  function FirstFlight(env: Env, n: Net, a: Action, iface: P.Iface, key: KeyStore.Modulus): Flight
    requires a.Send? && a.k < |n.kernels|
  {
    Flight(DataOf(a.k, |n.kernels[a.k].sends|), a.k, iface, P.DataPacket(env.w, iface, a.target, key, a.draw, a.data))
  }

  lemma SendLaunches(env: Env, n: Net, a: Action, iface: P.Iface, key: KeyStore.Modulus)
    requires KernelsOk(n) && a.Send? && a.k < |n.kernels|
    requires P.SelectRoute(env.w, n.kernels[a.k], a.target) == P.Via(iface)
    requires KeyStore.Find(n.kernels[a.k].store, a.target) == Some(key)
    ensures FirstFlight(env, n, a, iface, key) in Step(env, n, a).flights
  {
    var s, s', f := n.kernels[a.k], Moved(env, n, a), FirstFlight(env, n, a, iface, key);
    assert s'.outbox == s.outbox + [P.Push(iface, f.packet, P.Data(|s.sends|))];
    MovedKeeps(env, n, a);
    AbsorbLaunches(Before(env, n, a), a.k, s', None, P.Push(iface, f.packet, P.Data(|s.sends|)));
  }

  /**
   * A send whose route is selected and whose target's key is stored sets its packet out on a course of
   * any length below the initial time to live.
   */
  lemma SendSetsOut(env: Env, n: Net, a: Action, iface: P.Iface, key: KeyStore.Modulus, hops: nat)
    requires KernelsOk(n) && a.Send? && a.k < |n.kernels| && hops < 64
    requires P.SelectRoute(env.w, n.kernels[a.k], a.target) == P.Via(iface)
    requires KeyStore.Find(n.kernels[a.k].store, a.target) == Some(key)
    requires Leads(env, n.kernels, env.wires(a.k, iface.name), Address.FromString(a.target), hops)
    ensures OnCourse(env, Step(env, n, a), DataOf(a.k, |n.kernels[a.k].sends|), hops)
  {
    SendLaunches(env, n, a, iface, key);
    StillOnCourse(env, n, a, FirstFlight(env, n, a, iface, key), hops);
  }

  lemma DataIsAvim(r: Realm, n: Net, f: Flight)
    requires Sound(r, n) && f in n.flights && f.id.DataOf?
    ensures f.packet.kind.Avim?
  {
    assert HonestFlight(r, n, f);
  }

  /** A data packet on course can be processed at once, whatever the time. */
  lemma CanBeProcessed(r: Realm, env: Env, n: Net, x: Id, hops: nat, now: int) returns (a: Action)
    requires Sound(r, n) && x.DataOf? && OnCourse(env, n, x, hops)
    ensures Handles(env, n, a, x) && Spares(env, n, a, x) && a.now == now
  {
    var f :| f in n.flights && f.id == x && Bound(env, n.kernels, f, hops);
    var i: nat :| i < |n.flights| && n.flights[i] == f;
    DataIsAvim(r, n, f);
    a := Receive(i, now, []);
  }

  lemma ReachedIsGenuine(r: Realm, env: Env, n: Net)
    requires HonestEnv(r, env) && Reached(r, env, n)
    ensures forall d :: d in n.log ==> Genuine(r, n, d)
    ensures Distinct(FlightIds(n.flights) + LogIds(n.log))
  {
    ReachedIsSound(r, env, n);
    NothingTwice(n);
  }

  /**
   * End-to-end delivery over any number of hops. Take a network that an honest run has reached and a
   * data packet in flight there, from where the routes lead over `hops` links, fewer than its time to
   * live, to its destination. However the run goes on, as long as this packet is neither lost nor
   * diverted: up to its `hops`-th processing it is in flight, that much nearer; after one more it is
   * delivered, genuinely; and it is never both, nor twice. `left` is how many links remain, or -1.
   */
  lemma CarriedToDestination(r: Realm, env: Env, n: Net, x: Id, hops: nat, actions: seq<Action>, left: int)
    requires HonestEnv(r, env) && Reached(r, env, n) && KernelsOk(n)
    requires x.DataOf? && Progress(env, n, x, hops) && RunSpares(env, n, actions, x)
    requires HonestActions(r, actions) && left == hops - Handlings(env, n, actions, x)
    ensures Progress(env, Run(env, n, actions), x, left)
    ensures forall d :: d in Run(env, n, actions).log && d.id == x ==> Genuine(r, Run(env, n, actions), d)
    ensures Distinct(FlightIds(Run(env, n, actions).flights) + LogIds(Run(env, n, actions).log))
  {
    RunProgresses(r, env, n, actions, x, hops, left);
    RunReached(r, env, n, actions);
    ReachedIsGenuine(r, env, Run(env, n, actions));
  }
}
