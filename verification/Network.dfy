/**
 * Any number of kernels joined by links in any way, cyclic routes included. A packet is in flight
 * from the moment it is pushed to a write queue until the peer processes it or it is lost; packets
 * may be processed in any order. `LinkOrder` shows that taking those of a link oldest first is one of
 * these orders, and is what `Link` proves of the bytes.
 */
module Network {
  import opened Std
  import opened Cipher
  import opened KeyStore
  import opened KernelInvariant
  import opened KernelEffects
  import RouteTable
  import P = Protocol

  /** A packet's identity: the data packet of a send, or one of the key requests and replies. */
  datatype Id = DataOf(kernel: nat, send: nat) | Control(n: nat)

  /** A packet in the write queue of an interface, on its wire, or waiting to be processed. */
  datatype Flight = Flight(id: Id, kernel: nat, iface: P.Iface, packet: P.Packet)

  /** A packet's data has been pushed to the receive buffer of a kernel. */
  datatype Delivery = Delivery(id: Id, kernel: nat, entry: (string, Bytes))

  /** The far end of an interface. */
  datatype Port = Port(kernel: nat, iface: P.Iface)

  /** What is outside the kernels: their libraries, and who is connected to whom. */
  datatype Env = Env(w: P.World, wires: (nat, string) -> Option<Port>)

  /**
   * `next` numbers the control packets, `started` and `processed` count the sends begun and the
   * packets processed so far.
   */
  datatype Net = Net(
    kernels: seq<P.State>, flights: seq<Flight>, log: seq<Delivery>, next: nat, started: nat, processed: nat)

  function Initial(n: nat): (r: Net)
    ensures KernelsOk(r)
  {
    InitialKernel();
    Net(seq(n, _ => P.Initial()), [], [], 0, 0, 0)
  }

  lemma InitialKernel()
    ensures Inv(P.Initial())
  {
    assert P.Ids(P.Initial().waiters) + [] == [];
  }

  datatype Action =
    | Send(k: nat, target: string, data: Bytes, draw: nat, now: int)
    | Receive(i: nat, now: int, sorted: seq<PubKey>)
    | Lose(i: nat)
    | Written(k: nat, i: nat)
    | Tick(k: nat, now: int, clock: nat -> int)
    | AddInterface(k: nat, iface: P.Iface)
    | AddRoute(k: nat, route: RouteTable.Route, routes: seq<RouteTable.Route>)
    | RemoveInterface(k: nat, name: string)
    | Purge(k: nat, order: seq<string>, now: int)

  // ----- Steps -----

  function IdOf(k: nat, p: P.Push, via: Option<Id>, n: nat): Id {
    match p.tag
    case Data(send) => DataOf(k, send)
    case Forwarded => if via.Some? then via.value else Control(n)
    case _ => Control(n)
  }

  /** The flights that kernel `k`'s new pushes begin; a forwarded packet keeps its identity. */
  function Launch(k: nat, pushes: seq<P.Push>, via: Option<Id>, n: nat): seq<Flight> {
    if pushes == [] then []
    else [Flight(IdOf(k, pushes[0], via, n), k, pushes[0].iface, pushes[0].packet)] + Launch(k, pushes[1..], via, n + 1)
  }

  function Deliver(k: nat, entries: seq<(string, Bytes)>, id: Id): seq<Delivery> {
    if entries == [] then [] else [Delivery(id, k, entries[0])] + Deliver(k, entries[1..], id)
  }

  /** Kernel `k` has moved to `s`: what it pushed is in flight, what it received is logged. */
  function Absorb(n: Net, k: nat, s: P.State, via: Option<Id>): Net
    requires k < |n.kernels|
    requires n.kernels[k].outbox <= s.outbox && n.kernels[k].recv <= s.recv
  {
    var pushes := s.outbox[|n.kernels[k].outbox|..];
    var entries := s.recv[|n.kernels[k].recv|..];
    n.(kernels := n.kernels[k := s],
       flights := n.flights + Launch(k, pushes, via, n.next),
       log := n.log + (if via.Some? then Deliver(k, entries, via.value) else []),
       next := n.next + |pushes|)
  }

  /** The kernel at which flight `i` arrives, and the interface through which it does. */
  function Destination(env: Env, n: Net, i: nat): Option<Port>
    requires i < |n.flights|
  {
    env.wires(n.flights[i].kernel, n.flights[i].iface.name)
  }

  ghost predicate Enabled(env: Env, n: Net, a: Action) {
    match a
    case Send(k, _, _, _, _) => k < |n.kernels|
    case Receive(i, now, sorted) =>
      i < |n.flights| &&
      var port := Destination(env, n, i);
      port.Some? && port.value.kernel < |n.kernels|
      && SortChoice(env.w, n.kernels[port.value.kernel], n.flights[i].packet, now, sorted)
    case Lose(i) => i < |n.flights|
    case Written(k, i) => k < |n.kernels| && i < |n.kernels[k].outbox| && i !in n.kernels[k].called
    case Tick(k, now, clock) => k < |n.kernels|
    case AddInterface(k, _) => k < |n.kernels|
    case AddRoute(k, r, routes) =>
      k < |n.kernels| && r.ifname in n.kernels[k].ifs && RouteTable.IsSorting(n.kernels[k].routes + [r], routes)
    case RemoveInterface(k, _) => k < |n.kernels|
    case Purge(k, order, now) =>
      k < |n.kernels| && Lists(order, n.kernels[k].store) && DeadTail(n.kernels[k].store, order, now) % 2 == 0
  }

  /** The state of the one kernel that takes part in an action, after it. */
  ghost function Moved(env: Env, n: Net, a: Action): P.State
    requires Enabled(env, n, a) && !a.Lose?
  {
    match a
    case Send(k, target, data, draw, now) => P.Start(env.w, n.kernels[k], target, data, draw, now)
    case Receive(i, now, sorted) =>
      var port := Destination(env, n, i).value;
      P.Process(env.w, n.kernels[port.kernel], n.flights[i].packet, port.iface, now, sorted)
    case Written(k, i) => P.WriteCompleted(n.kernels[k], i)
    case Tick(k, now, clock) => P.Tick(env.w, n.kernels[k], now, clock)
    case AddInterface(k, iface) => P.AddInterface(n.kernels[k], iface)
    case AddRoute(k, _, routes) => n.kernels[k].(routes := routes)
    case RemoveInterface(k, name) => P.RemoveInterface(n.kernels[k], name)
    case Purge(k, order, now) => n.kernels[k].(store := PurgeAlong(n.kernels[k].store, order, now).store)
  }

  ghost function Actor(env: Env, n: Net, a: Action): (k: nat)
    requires Enabled(env, n, a) && !a.Lose?
    ensures k < |n.kernels|
  {
    if a.Receive? then Destination(env, n, a.i).value.kernel else a.k
  }

  /** The network just before the actor's step: the packet being processed is no longer in flight. */
  ghost function Before(env: Env, n: Net, a: Action): Net
    requires Enabled(env, n, a)
  {
    match a
    case Receive(i, _, _) => n.(flights := RemoveAt(n.flights, i), processed := n.processed + 1)
    case Lose(i) => n.(flights := RemoveAt(n.flights, i))
    case Send(_, _, _, _, _) => n.(started := n.started + 1)
    case _ => n
  }

  ghost function Step(env: Env, n: Net, a: Action): Net
    requires KernelsOk(n)
  {
    if !Enabled(env, n, a) then n
    else if a.Lose? then Before(env, n, a)
    else
      MovedKeeps(env, n, a);
      Absorb(Before(env, n, a), Actor(env, n, a), Moved(env, n, a), Via(n, a))
  }

  /** The identity of the packet that a step processes. */
  function Via(n: Net, a: Action): Option<Id> {
    if a.Receive? && a.i < |n.flights| then Some(n.flights[a.i].id) else None
  }

  ghost predicate KernelsOk(n: Net) {
    forall k {:trigger n.kernels[k]} :: 0 <= k < |n.kernels| ==> Inv(n.kernels[k])
  }

  /** Whatever the action, its actor keeps its invariant and loses none of its history. */
  lemma MovedKeeps(env: Env, n: Net, a: Action)
    requires KernelsOk(n) && Enabled(env, n, a) && !a.Lose?
    ensures Inv(Moved(env, n, a))
    ensures Grows(n.kernels[Actor(env, n, a)], Moved(env, n, a))
  {
    var s := n.kernels[Actor(env, n, a)];
    assert Inv(s);
    match a {
      case Send(k, target, data, draw, now) =>
        StartKeeps(env.w, s, target, data, draw, now);
        StartGrows(env.w, s, target, data, draw, now);
      case Receive(i, now, sorted) =>
        var port := Destination(env, n, i).value;
        ProcessKeeps(env.w, s, n.flights[i].packet, port.iface, now, sorted);
        ProcessGrows(env.w, s, n.flights[i].packet, port.iface, now, sorted);
      case Written(k, i) =>
        WriteCompletedKeeps(s, i);
        WriteCompletedGrows(s, i);
      case Tick(k, now, clock) =>
        TickKeeps(env.w, s, now, clock);
        TickGrows(env.w, s, now, clock);
      case AddInterface(k, iface) => AddInterfaceKeeps(s, iface);
      case AddRoute(k, route, routes) => AddRouteKeeps(s, route, routes);
      case RemoveInterface(k, name) => RemoveInterfaceKeeps(s, name);
      case Purge(k, order, now) => PurgeKeeps(s, order, now);
    }
  }

  lemma StepKeepsKernels(env: Env, n: Net, a: Action)
    requires KernelsOk(n)
    ensures KernelsOk(Step(env, n, a)) && |Step(env, n, a).kernels| == |n.kernels|
  {
    if Enabled(env, n, a) && !a.Lose? {
      MovedKeeps(env, n, a);
    }
  }

  ghost function Run(env: Env, n: Net, actions: seq<Action>): Net
    requires KernelsOk(n)
    decreases |actions|
  {
    if actions == [] then n
    else
      StepKeepsKernels(env, n, actions[0]);
      Run(env, Step(env, n, actions[0]), actions[1..])
  }

  /** Every kernel keeps its invariant in every run. */
  lemma {:induction false} RunKeepsKernels(env: Env, n: Net, actions: seq<Action>)
    requires KernelsOk(n)
    ensures KernelsOk(Run(env, n, actions)) && |Run(env, n, actions).kernels| == |n.kernels|
    decreases |actions|
  {
    if actions != [] {
      StepKeepsKernels(env, n, actions[0]);
      RunKeepsKernels(env, Step(env, n, actions[0]), actions[1..]);
    }
  }

  // ----- Traffic dies out -----

  function FlightWeight(f: Flight): int {
    Weight(f.packet)
  }

  function SendBudget(s: P.State): int {
    Sum(Budget, s.sends)
  }

  /** All that the packets in flight and the waiting sends can still cause. */
  function Potential(n: Net): int {
    Sum(FlightWeight, n.flights) + Sum(SendBudget, n.kernels)
  }

  lemma {:induction false} LaunchWeight(k: nat, pushes: seq<P.Push>, via: Option<Id>, m: nat)
    ensures Sum(FlightWeight, Launch(k, pushes, via, m)) == Sum(PushWeight, pushes)
    decreases |pushes|
  {
    if pushes != [] {
      LaunchWeight(k, pushes[1..], via, m + 1);
      var f := Flight(IdOf(k, pushes[0], via, m), k, pushes[0].iface, pushes[0].packet);
      assert Launch(k, pushes, via, m)[1..] == Launch(k, pushes[1..], via, m + 1);
    }
  }

  /** A kernel's step changes the potential by what it changes that kernel's load. */
  lemma AbsorbPotential(n: Net, k: nat, s: P.State, via: Option<Id>)
    requires k < |n.kernels|
    requires n.kernels[k].outbox <= s.outbox && n.kernels[k].recv <= s.recv
    ensures Potential(Absorb(n, k, s, via)) == Potential(n) + Load(s) - Load(n.kernels[k])
  {
    var was, pushes := n.kernels[k], s.outbox[|n.kernels[k].outbox|..];
    assert s.outbox == was.outbox + pushes;
    SumAppend(PushWeight, was.outbox, pushes);
    SumAppend(FlightWeight, n.flights, Launch(k, pushes, via, n.next));
    LaunchWeight(k, pushes, via, n.next);
    SumUpdate(SendBudget, n.kernels, k, s);
  }

  lemma MovedLoad(env: Env, n: Net, a: Action)
    requires KernelsOk(n) && Enabled(env, n, a) && !a.Lose?
    ensures var before, after := Load(n.kernels[Actor(env, n, a)]), Load(Moved(env, n, a));
            match a
            case Receive(i, _, _) => after < before + FlightWeight(n.flights[i])
            case Send(_, _, _, _, _) => after <= before + SEND_LOAD
            case _ => after <= before
  {
    var s := n.kernels[Actor(env, n, a)];
    assert Inv(s);
    match a {
      case Send(k, target, data, draw, now) => StartLoad(env.w, s, target, data, draw, now);
      case Receive(i, now, sorted) =>
        ProcessLoad(env.w, s, n.flights[i].packet, Destination(env, n, i).value.iface, now, sorted);
      case Written(k, i) => WriteCompletedLoad(s, i);
      case Tick(k, now, clock) => TickLoad(env.w, s, now, clock);
      case _ =>
    }
  }

  /** What is counted: one more packet processed for each that is, and one more send begun for each that is. */
  lemma StepCounts(env: Env, n: Net, a: Action)
    requires KernelsOk(n)
    ensures var n' := Step(env, n, a);
            && n'.processed == n.processed + (if a.Receive? && Enabled(env, n, a) then 1 else 0)
            && n'.started == n.started + (if a.Send? && Enabled(env, n, a) then 1 else 0)
  {
    if Enabled(env, n, a) && !a.Lose? {
      MovedKeeps(env, n, a);
    }
  }

  /** Every processed packet costs the network potential, and only a new send restores any. */
  lemma StepPotential(env: Env, n: Net, a: Action)
    requires KernelsOk(n)
    ensures var n' := Step(env, n, a);
            Potential(n') + n'.processed - SEND_LOAD * n'.started <= Potential(n) + n.processed - SEND_LOAD * n.started
  {
    if Enabled(env, n, a) {
      var mid := Before(env, n, a);
      if a.Receive? || a.Lose? {
        SumRemove(FlightWeight, n.flights, a.i);
      }
      if !a.Lose? {
        MovedKeeps(env, n, a);
        MovedLoad(env, n, a);
        AbsorbPotential(mid, Actor(env, n, a), Moved(env, n, a), Via(n, a));
      }
    }
  }

  lemma {:induction false} RunPotential(env: Env, n: Net, actions: seq<Action>)
    requires KernelsOk(n)
    ensures var n' := Run(env, n, actions);
            Potential(n') + n'.processed - SEND_LOAD * n'.started <= Potential(n) + n.processed - SEND_LOAD * n.started
    decreases |actions|
  {
    if actions != [] {
      StepKeepsKernels(env, n, actions[0]);
      StepPotential(env, n, actions[0]);
      RunPotential(env, Step(env, n, actions[0]), actions[1..]);
    }
  }

  lemma {:induction false} NonNegative<T(!new)>(f: T -> int, s: seq<T>)
    requires forall x :: x in s ==> f(x) >= 0
    ensures Sum(f, s) >= 0
    decreases |s|
  {
    if s != [] {
      assert s[0] in s;
      NonNegative(f, s[1..]);
    }
  }

  lemma PotentialIsNonNegative(n: Net)
    requires KernelsOk(n)
    ensures Potential(n) >= 0
  {
    NonNegative(FlightWeight, n.flights);
    forall s | s in n.kernels
      ensures SendBudget(s) >= 0
    {
      forall send | send in s.sends
        ensures Budget(send) >= 0
      {
        var id: nat :| id < |s.sends| && s.sends[id] == send;
        assert SendOk(s, id);
      }
      NonNegative(Budget, s.sends);
    }
    NonNegative(SendBudget, n.kernels);
  }

  /**
   * In any network, with any route tables, from any packets in flight: however the run goes on, the
   * packets processed are at most the initial potential plus 448 for each send begun.
   */
  lemma TrafficDiesOut(env: Env, n: Net, actions: seq<Action>)
    requires KernelsOk(n) && n.started == 0 && n.processed == 0
    ensures Run(env, n, actions).processed <= Potential(n) + 448 * Run(env, n, actions).started
  {
    RunKeepsKernels(env, n, actions);
    RunPotential(env, n, actions);
    PotentialIsNonNegative(Run(env, n, actions));
  }
}
