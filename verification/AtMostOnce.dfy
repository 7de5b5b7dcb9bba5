/** No packet is ever in two places, and none is delivered twice, over any run of any network. */
module AtMostOnce {
  import opened Std
  import opened Cipher
  import opened KernelInvariant
  import opened KernelEffects
  import opened Network
  import P = Protocol

  function FlightIds(flights: seq<Flight>): (ids: seq<Id>)
    ensures |ids| == |flights|
  {
    if flights == [] then [] else [flights[0].id] + FlightIds(flights[1..])
  }

  function LogIds(log: seq<Delivery>): (ids: seq<Id>)
    ensures |ids| == |log|
  {
    if log == [] then [] else [log[0].id] + LogIds(log[1..])
  }

  /** Where every packet is: in flight, once per flight, or delivered, once per delivery. */
  ghost function Places(n: Net): multiset<Id> {
    multiset(FlightIds(n.flights)) + multiset(LogIds(n.log))
  }

  /** The packet has been made: control packets by number, data packets by being in an outbox. */
  ghost predicate Made(n: Net, id: Id) {
    match id
    case Control(m) => m < n.next
    case DataOf(k, send) => k < |n.kernels| && CountTag(n.kernels[k].outbox, P.Data(send)) >= 1
  }

  ghost predicate OnePlace(n: Net) {
    forall id {:trigger Places(n)[id]} :: Places(n)[id] <= 1 && (Places(n)[id] == 1 ==> Made(n, id))
  }

  lemma {:induction false} FlightIdsAppend(a: seq<Flight>, b: seq<Flight>)
    ensures FlightIds(a + b) == FlightIds(a) + FlightIds(b)
    decreases |a|
  {
    if a == [] {
      assert a + b == b;
    } else {
      assert (a + b)[1..] == a[1..] + b;
      FlightIdsAppend(a[1..], b);
    }
  }

  lemma {:induction false} LogIdsAppend(a: seq<Delivery>, b: seq<Delivery>)
    ensures LogIds(a + b) == LogIds(a) + LogIds(b)
    decreases |a|
  {
    if a == [] {
      assert a + b == b;
    } else {
      assert (a + b)[1..] == a[1..] + b;
      LogIdsAppend(a[1..], b);
    }
  }

  lemma FlightIdsMiddle(a: seq<Flight>, f: Flight, b: seq<Flight>)
    ensures multiset(FlightIds(a + [f] + b)) == multiset(FlightIds(a + b)) + multiset{f.id}
  {
    FlightIdsAppend(a + [f], b);
    FlightIdsAppend(a, [f]);
    FlightIdsAppend(a, b);
    assert FlightIds([f]) == [f.id] by {
      assert [f][1..] == [];
    }
  }

  lemma FlightIdsRemove(flights: seq<Flight>, i: nat)
    requires i < |flights|
    ensures multiset(FlightIds(flights)) == multiset(FlightIds(RemoveAt(flights, i))) + multiset{flights[i].id}
  {
    SplitAt(flights, i);
    FlightIdsMiddle(flights[..i], flights[i], flights[i + 1..]);
  }

  /** How often an identity occurs among the flights begun by a list of pushes. */
  ghost function Launched(k: nat, pushes: seq<P.Push>, via: Option<Id>, m: nat, id: Id): nat {
    multiset(FlightIds(Launch(k, pushes, via, m)))[id]
  }

  /** The identity of the packet being processed reappears once per forwarding push. */
  function Again(pushes: seq<P.Push>, via: Option<Id>, id: Id): nat {
    if via == Some(id) then CountTag(pushes, P.Forwarded) else 0
  }

  lemma LaunchedStep(k: nat, pushes: seq<P.Push>, via: Option<Id>, m: nat, id: Id)
    requires pushes != []
    ensures Launched(k, pushes, via, m, id) ==
            (if IdOf(k, pushes[0], via, m) == id then 1 else 0) + Launched(k, pushes[1..], via, m + 1, id)
  {
    var rest := Launch(k, pushes[1..], via, m + 1);
    assert Launch(k, pushes, via, m)[1..] == rest;
    assert FlightIds(Launch(k, pushes, via, m)) == [IdOf(k, pushes[0], via, m)] + FlightIds(rest);
  }

  lemma {:induction false} LaunchedData(k: nat, pushes: seq<P.Push>, via: Option<Id>, m: nat, k': nat, send: nat)
    ensures Launched(k, pushes, via, m, DataOf(k', send)) ==
            Again(pushes, via, DataOf(k', send)) + if k' == k then CountTag(pushes, P.Data(send)) else 0
    decreases |pushes|
  {
    if pushes != [] {
      LaunchedStep(k, pushes, via, m, DataOf(k', send));
      LaunchedData(k, pushes[1..], via, m + 1, k', send);
    }
  }

  lemma {:induction false} LaunchedControl(k: nat, pushes: seq<P.Push>, via: Option<Id>, m: nat, c: nat)
    ensures Launched(k, pushes, via, m, Control(c)) <=
            Again(pushes, via, Control(c)) + if m <= c < m + |pushes| then 1 else 0
    decreases |pushes|
  {
    if pushes != [] {
      LaunchedStep(k, pushes, via, m, Control(c));
      LaunchedControl(k, pushes[1..], via, m + 1, c);
    }
  }

  lemma {:induction false} DeliverIds(k: nat, entries: seq<(string, Bytes)>, id: Id)
    ensures multiset(LogIds(Deliver(k, entries, id))) == multiset{}[id := |entries|]
    decreases |entries|
  {
    if entries != [] {
      DeliverIds(k, entries[1..], id);
      assert Deliver(k, entries, id)[1..] == Deliver(k, entries[1..], id);
    }
  }

  /** Who a kernel's step may put where: the processed packet in at most one place, new ones in one. */
  ghost predicate Sparing(s: P.State, s': P.State, via: Option<Id>) {
    s.outbox <= s'.outbox && s.recv <= s'.recv && (Fates(s, s', 0) || (via.Some? && Fates(s, s', 1)))
  }

  /** An identity's count after a step is at most its count before, plus what the step may add. */
  lemma AbsorbCount(n: Net, k: nat, s: P.State, via: Option<Id>, id: Id)
    requires k < |n.kernels| && Sparing(n.kernels[k], s, via)
    ensures var was, n' := n.kernels[k], Absorb(n, k, s, via);
            Places(n')[id] <= Places(n)[id] + (if via == Some(id) then 1 else 0) +
              match id
              case DataOf(k', send) =>
                if k' == k then CountTag(s.outbox, P.Data(send)) - CountTag(was.outbox, P.Data(send)) else 0
              case Control(c) => if n.next <= c < n'.next then 1 else 0
  {
    var was, n' := n.kernels[k], Absorb(n, k, s, via);
    var pushes, entries := s.outbox[|was.outbox|..], s.recv[|was.recv|..];
    assert s.outbox == was.outbox + pushes;
    CountTagAppend(was.outbox, pushes, P.Forwarded);
    if id.DataOf? {
      CountTagAppend(was.outbox, pushes, P.Data(id.send));
      LaunchedData(k, pushes, via, n.next, id.kernel, id.send);
    } else {
      LaunchedControl(k, pushes, via, n.next, id.n);
    }
    FlightIdsAppend(n.flights, Launch(k, pushes, via, n.next));
    var delivered := if via.Some? then Deliver(k, entries, via.value) else [];
    LogIdsAppend(n.log, delivered);
    if via.Some? {
      DeliverIds(k, entries, via.value);
    }
    assert multiset(LogIds(delivered))[id] == if via == Some(id) then |entries| else 0;
  }

  lemma AbsorbMade(n: Net, k: nat, s: P.State, via: Option<Id>, id: Id)
    requires k < |n.kernels| && n.kernels[k].outbox <= s.outbox && n.kernels[k].recv <= s.recv
    ensures Made(n, id) ==> Made(Absorb(n, k, s, via), id)
  {
    if id.DataOf? && id.kernel == k {
      var was := n.kernels[k].outbox;
      assert s.outbox == was + s.outbox[|was|..];
      CountTagAppend(was, s.outbox[|was|..], P.Data(id.send));
    }
  }

  /**
   * If a network has every packet in one place, save that the processed one has just been taken
   * from its place, it still has after the kernel's step.
   */
  lemma AbsorbKeepsOnePlace(n: Net, k: nat, s: P.State, via: Option<Id>)
    requires k < |n.kernels| && Inv(s) && Sparing(n.kernels[k], s, via)
    requires OnePlace(n)
    requires via.Some? ==> Places(n)[via.value] == 0 && Made(n, via.value)
    ensures OnePlace(Absorb(n, k, s, via))
  {
    var was, n' := n.kernels[k], Absorb(n, k, s, via);
    forall id
      ensures Places(n')[id] <= 1 && (Places(n')[id] == 1 ==> Made(n', id))
    {
      AbsorbCount(n, k, s, via, id);
      AbsorbMade(n, k, s, via, id);
      assert Places(n)[id] <= 1 && (Places(n)[id] == 1 ==> Made(n, id));
      if id.DataOf? && id.kernel == k {
        AtMostOneDataPacket(s, id.send);
      }
    }
  }

  lemma AtMostOneDataPacket(s: P.State, send: nat)
    requires Inv(s)
    ensures CountTag(s.outbox, P.Data(send)) <= 1
  {
    if send < |s.sends| {
      assert SendOk(s, send);
    } else {
      assert CountTag(s.outbox, P.Data(send)) == 0;
    }
  }

  lemma MovedIsSparing(env: Env, n: Net, a: Action)
    requires KernelsOk(n) && Enabled(env, n, a) && !a.Lose?
    ensures Sparing(n.kernels[Actor(env, n, a)], Moved(env, n, a), Via(n, a))
  {
    MovedKeeps(env, n, a);
    var s := n.kernels[Actor(env, n, a)];
    assert Inv(s);
    match a {
      case Send(k, target, data, draw, now) => StartForwardsNothing(env.w, s, target, data, draw, now);
      case Receive(i, now, sorted) =>
        OneFate(env.w, s, n.flights[i].packet, Destination(env, n, i).value.iface, now, sorted);
      case Tick(k, now, clock) =>
        var s' := s.(waiters := P.Unexpired(s.waiters, now));
        ResumesForwardNothing(env.w, s', P.Ids(P.ExpiredOf(s.waiters, now)), clock);
      case Written(k, i) => WriteCompletedForwardsNothing(s, i);
      case _ =>
    }
  }

  lemma PlacesWithout(n: Net, i: nat, n': Net)
    requires i < |n.flights| && n'.flights == RemoveAt(n.flights, i) && n'.log == n.log
    ensures Places(n) == Places(n') + multiset{n.flights[i].id}
  {
    FlightIdsRemove(n.flights, i);
  }

  lemma FewerPlaces(n: Net, n': Net)
    requires OnePlace(n) && Places(n') <= Places(n)
    requires n'.kernels == n.kernels && n'.next == n.next
    ensures OnePlace(n')
  {
    forall id
      ensures Places(n')[id] <= 1 && (Places(n')[id] == 1 ==> Made(n', id))
    {
      assert Places(n)[id] <= 1 && (Places(n)[id] == 1 ==> Made(n, id));
    }
  }

  /** Taking a packet out of flight leaves all others where they are, and it nowhere. */
  lemma BeforeKeepsOnePlace(env: Env, n: Net, a: Action)
    requires OnePlace(n) && Enabled(env, n, a)
    ensures OnePlace(Before(env, n, a))
    ensures a.Receive? ==> Places(Before(env, n, a))[n.flights[a.i].id] == 0 && Made(n, n.flights[a.i].id)
  {
    var n' := Before(env, n, a);
    if a.Receive? || a.Lose? {
      PlacesWithout(n, a.i, n');
      assert Places(n)[n.flights[a.i].id] <= 1;
    }
    FewerPlaces(n, n');
  }

  lemma StepKeepsOnePlace(env: Env, n: Net, a: Action)
    requires KernelsOk(n) && OnePlace(n)
    ensures OnePlace(Step(env, n, a))
  {
    if Enabled(env, n, a) {
      BeforeKeepsOnePlace(env, n, a);
      if !a.Lose? {
        MovedKeeps(env, n, a);
        MovedIsSparing(env, n, a);
        AbsorbKeepsOnePlace(Before(env, n, a), Actor(env, n, a), Moved(env, n, a), Via(n, a));
      }
    }
  }

  lemma {:induction false} RunKeepsOnePlace(env: Env, n: Net, actions: seq<Action>)
    requires KernelsOk(n) && OnePlace(n)
    ensures OnePlace(Run(env, n, actions))
    decreases |actions|
  {
    if actions != [] {
      StepKeepsKernels(env, n, actions[0]);
      StepKeepsOnePlace(env, n, actions[0]);
      RunKeepsOnePlace(env, Step(env, n, actions[0]), actions[1..]);
    }
  }

  // ----- The log is what the kernels have received -----

  /** The receive-buffer entries of kernel `k` among the deliveries, in order. */
  function Entries(log: seq<Delivery>, k: nat): seq<(string, Bytes)> {
    if log == [] then []
    else if log[0].kernel == k then [log[0].entry] + Entries(log[1..], k)
    else Entries(log[1..], k)
  }

  /** Every receive buffer is exactly the deliveries made to its kernel. */
  ghost predicate Logged(n: Net) {
    forall k {:trigger n.kernels[k]} :: 0 <= k < |n.kernels| ==> n.kernels[k].recv == Entries(n.log, k)
  }

  lemma {:induction false} EntriesAppend(a: seq<Delivery>, b: seq<Delivery>, k: nat)
    ensures Entries(a + b, k) == Entries(a, k) + Entries(b, k)
    decreases |a|
  {
    if a == [] {
      assert a + b == b;
    } else {
      assert (a + b)[1..] == a[1..] + b;
      EntriesAppend(a[1..], b, k);
    }
  }

  lemma {:induction false} DeliverEntries(k: nat, entries: seq<(string, Bytes)>, id: Id, k': nat)
    ensures Entries(Deliver(k, entries, id), k') == if k' == k then entries else []
    ensures forall d :: d in Deliver(k, entries, id) ==> d.id == id && d.kernel == k && d.entry in entries
    decreases |entries|
  {
    if entries != [] {
      DeliverEntries(k, entries[1..], id, k');
      assert Deliver(k, entries, id)[1..] == Deliver(k, entries[1..], id);
    }
  }

  lemma AbsorbKeepsLogged(n: Net, k: nat, s: P.State, via: Option<Id>)
    requires k < |n.kernels| && Logged(n) && Sparing(n.kernels[k], s, via)
    ensures Logged(Absorb(n, k, s, via))
  {
    var n', entries := Absorb(n, k, s, via), s.recv[|n.kernels[k].recv|..];
    var delivered := if via.Some? then Deliver(k, entries, via.value) else [];
    assert s.recv == n.kernels[k].recv + entries;
    forall k': nat | k' < |n'.kernels|
      ensures n'.kernels[k'].recv == Entries(n'.log, k')
    {
      EntriesAppend(n.log, delivered, k');
      if via.Some? {
        DeliverEntries(k, entries, via.value, k');
      }
      assert n.kernels[k'].recv == Entries(n.log, k');
    }
  }

  lemma StepKeepsLogged(env: Env, n: Net, a: Action)
    requires KernelsOk(n) && Logged(n)
    ensures Logged(Step(env, n, a))
  {
    if Enabled(env, n, a) {
      var mid := Before(env, n, a);
      assert Logged(mid) by {
        assert mid.kernels == n.kernels && mid.log == n.log;
      }
      if !a.Lose? {
        MovedKeeps(env, n, a);
        MovedIsSparing(env, n, a);
        AbsorbKeepsLogged(mid, Actor(env, n, a), Moved(env, n, a), Via(n, a));
      }
    }
  }

  lemma {:induction false} RunKeepsLogged(env: Env, n: Net, actions: seq<Action>)
    requires KernelsOk(n) && Logged(n)
    ensures Logged(Run(env, n, actions))
    decreases |actions|
  {
    if actions != [] {
      StepKeepsKernels(env, n, actions[0]);
      StepKeepsLogged(env, n, actions[0]);
      RunKeepsLogged(env, Step(env, n, actions[0]), actions[1..]);
    }
  }

  /**
   * At most once: in every run of every network from the start, no packet is in flight twice, or
   * in flight and delivered, or delivered twice, at one kernel or at several; and what is delivered
   * is all that the receive buffers hold.
   */
  lemma DeliveredAtMostOnce(env: Env, count: nat, actions: seq<Action>)
    ensures var n := Run(env, Initial(count), actions);
            && Distinct(FlightIds(n.flights) + LogIds(n.log))
            && (forall i, j :: 0 <= i < j < |n.log| ==> n.log[i].id != n.log[j].id)
            && (forall k {:trigger n.kernels[k]} :: 0 <= k < |n.kernels| ==> n.kernels[k].recv == Entries(n.log, k))
  {
    RunKeepsOnePlace(env, Initial(count), actions);
    RunKeepsLogged(env, Initial(count), actions);
    var n := Run(env, Initial(count), actions);
    assert Logged(n);
    NothingTwice(n);
  }

  lemma NothingTwice(n: Net)
    requires OnePlace(n)
    ensures Distinct(FlightIds(n.flights) + LogIds(n.log))
    ensures forall i, j :: 0 <= i < j < |n.log| ==> n.log[i].id != n.log[j].id
  {
    var all, logged := FlightIds(n.flights) + LogIds(n.log), LogIds(n.log);
    DistinctCounts(all) by {
      assert multiset(all) == Places(n);
    }
    assert forall id :: multiset(all)[id] == Places(n)[id];
    DistinctSub(all, logged);
    forall i, j | 0 <= i < j < |n.log|
      ensures n.log[i].id != n.log[j].id
    {
      LogIdAt(n.log, i);
      LogIdAt(n.log, j);
      DistinctAt(logged, i, j);
    }
  }

  lemma {:induction false} LogIdAt(log: seq<Delivery>, i: nat)
    requires i < |log|
    ensures LogIds(log)[i] == log[i].id
    decreases |log|
  {
    if i > 0 {
      LogIdAt(log[1..], i - 1);
    }
  }
}
