/**
 * A send that has no key asks for it. The request travels to an owner of the target, the reply travels
 * back, and the send transmits: if the interface at which the request arrives has the target for its address.
 * A kernel with several addresses answers from the one of that interface, under which the key is then
 * stored, so that a send to another of its addresses is not helped.
 */
module KeyFetch {
  import opened Std
  import opened KernelInvariant
  import opened KernelEffects
  import opened Honesty
  import opened Network
  import opened AtMostOnce
  import opened Integrity
  import opened Journey
  import Address
  import KeyStore
  import P = Protocol

  // ----- The three packets -----

  /** A send whose target has no key waits, and its request is in flight. */
  lemma AskSetsOut(env: Env, n: Net, a: Action, iface: P.Iface)
    requires KernelsOk(n) && a.Send? && a.k < |n.kernels|
    requires P.SelectRoute(env.w, n.kernels[a.k], a.target) == P.Via(iface)
    requires KeyStore.Find(n.kernels[a.k].store, a.target).None?
    ensures var n', id := Step(env, n, a), |n.kernels[a.k].sends|;
            && Flight(Control(n.next), a.k, iface, P.AskPacket(iface, a.target)) in n'.flights
            && a.k < |n'.kernels| && id < |n'.kernels[a.k].sends|
            && n'.kernels[a.k].sends[id] == P.Send(a.target, a.data, a.draw, Some(iface), 1, P.Waiting)
  {
    var s, s', id := n.kernels[a.k], Moved(env, n, a), |n.kernels[a.k].sends|;
    var push := P.Push(iface, P.AskPacket(iface, a.target), P.Ask(id));
    assert s'.outbox == s.outbox + [push];
    MovedKeeps(env, n, a);
    AbsorbLaunches(Before(env, n, a), a.k, s', None, push);
  }

  /** A request processed at its destination is answered from the interface at which it arrived. */
  lemma AskIsAnswered(env: Env, n: Net, a: Action)
    requires KernelsOk(n) && a.Receive? && Enabled(env, n, a) && n.flights[a.i].packet.kind.PkAsk?
    requires P.IsToMe(n.kernels[Actor(env, n, a)], n.flights[a.i].packet.dest)
    ensures var arrival := Destination(env, n, a.i).value.iface;
            var reply := P.ReplyPacket(env.w, arrival, Address.ToString(n.flights[a.i].packet.src));
            Flight(Control(n.next), Actor(env, n, a), arrival, reply) in Step(env, n, a).flights
  {
    var k, f, arrival := Actor(env, n, a), n.flights[a.i], Destination(env, n, a.i).value.iface;
    var s, src := n.kernels[k], Address.ToString(f.packet.src);
    assert Inv(s);
    var push := P.Push(arrival, P.ReplyPacket(env.w, arrival, src), P.Reply);
    AskDispatched(env.w, s, f.packet, arrival, a.now, a.sorted, push);
    MovedKeeps(env, n, a);
    AbsorbLaunches(Before(env, n, a), k, Moved(env, n, a), Some(f.id), push);
  }

  lemma AskDispatched(
      w: P.World, s: P.State, p: P.Packet, arrival: P.Iface, now: int, sorted: seq<KeyStore.PubKey>, push: P.Push)
    requires Inv(s) && SortChoice(w, s, p, now, sorted) && p.kind.PkAsk? && P.IsToMe(s, p.dest)
    requires push == P.Push(arrival, P.ReplyPacket(w, arrival, Address.ToString(p.src)), P.Reply)
    ensures var s' := P.Process(w, s, p, arrival, now, sorted);
            |s'.outbox| > |s.outbox| && s'.outbox[|s.outbox|] == push
  {
    var s2 := Dispatched(w, s, p, arrival, now, sorted);
    DispatchedKeeps(w, s, p, arrival, now, sorted);
    PostProcessGrows(w, s2, Address.ToString(p.src), now);
    assert s2.outbox == s.outbox + [push];
  }

  /** A reply stores a key under the address it comes from, and under no other. */
  lemma ReplyStores(
      w: P.World, s: P.State, p: P.Packet, arrival: P.Iface, now: int, sorted: seq<KeyStore.PubKey>, target: string)
    requires Inv(s) && SortChoice(w, s, p, now, sorted) && p.kind.PkReply? && P.IsToMe(s, p.dest)
    requires target !in s.store
    ensures target in P.Process(w, s, p, arrival, now, sorted).store <==> Address.ToString(p.src) == target
  {
    DispatchedKeeps(w, s, p, arrival, now, sorted);
    ReleaseLeaves(w, Dispatched(w, s, p, arrival, now, sorted), Address.ToString(p.src), now);
  }

  /** A reply processed at its destination ends exactly the waits for the address it comes from. */
  lemma ReplyReleases(
      w: P.World, s: P.State, p: P.Packet, arrival: P.Iface, now: int, sorted: seq<KeyStore.PubKey>, wt: P.Waiter)
    requires Inv(s) && SortChoice(w, s, p, now, sorted) && p.kind.PkReply? && P.IsToMe(s, p.dest) && wt in s.waiters
    ensures wt in P.Process(w, s, p, arrival, now, sorted).waiters <==> Address.ToString(p.src) != wt.target
  {
    ReplyStores(w, s, p, arrival, now, sorted, wt.target);
    ReleasedWhenKeyArrives(w, s, p, arrival, now, sorted);
  }

  /** A send that waits for the address the reply comes from is among those released. */
  lemma ReplyFindsWaiter(
      w: P.World, s: P.State, p: P.Packet, arrival: P.Iface, now: int, sorted: seq<KeyStore.PubKey>, id: nat)
    requires Inv(s) && SortChoice(w, s, p, now, sorted) && p.kind.PkReply? && P.IsToMe(s, p.dest)
    requires id < |s.sends| && s.sends[id].phase.Waiting? && s.sends[id].target == Address.ToString(p.src)
    ensures var src, s2 := Address.ToString(p.src), Dispatched(w, s, p, arrival, now, sorted);
            && InvBut(s2, src) && s2.sends == s.sends && s2.outbox == s.outbox
            && id in P.Ids(P.ReleasedBy(s2.store, src, s2.waiters))
  {
    var src, s2 := Address.ToString(p.src), Dispatched(w, s, p, arrival, now, sorted);
    DispatchedKeeps(w, s, p, arrival, now, sorted);
    WaiterOf(s, id);
    var wt :| wt in s.waiters && wt.id == id && wt.target == src;
    ReplyKey(w, s, p, arrival, now, sorted);
    assert wt in P.ReleasedBy(s2.store, src, s2.waiters);
    IdInIds(P.ReleasedBy(s2.store, src, s2.waiters), wt);
  }

  /** The sends whose waits it ends have a key now, and have gone on to write their data packets. */
  lemma ReplyTransmits(
      w: P.World, s: P.State, p: P.Packet, arrival: P.Iface, now: int, sorted: seq<KeyStore.PubKey>, id: nat)
    requires Inv(s) && SortChoice(w, s, p, now, sorted) && p.kind.PkReply? && P.IsToMe(s, p.dest)
    requires id < |s.sends| && s.sends[id].phase.Waiting? && s.sends[id].target == Address.ToString(p.src)
    ensures var s' := P.Process(w, s, p, arrival, now, sorted);
            id < |s'.sends| && s'.sends[id] == s.sends[id].(phase := P.Writing)
  {
    ReplyFindsWaiter(w, s, p, arrival, now, sorted, id);
    ReleasedSendsTransmit(w, Dispatched(w, s, p, arrival, now, sorted), Address.ToString(p.src), now);
  }

  /** Their data packets are enqueued in this step, sealed with a key that is then stored. */
  lemma ReplyEnqueues(
      w: P.World, s: P.State, p: P.Packet, arrival: P.Iface, now: int, sorted: seq<KeyStore.PubKey>, id: nat)
    requires Inv(s) && SortChoice(w, s, p, now, sorted) && p.kind.PkReply? && P.IsToMe(s, p.dest)
    requires id < |s.sends| && s.sends[id].phase.Waiting? && s.sends[id].target == Address.ToString(p.src)
    ensures s.sends[id].iface.Some?
    ensures var s' := P.Process(w, s, p, arrival, now, sorted);
            && s.outbox <= s'.outbox
            && exists key :: DataPush(w, s.sends[id], key, id) in s'.outbox[|s.outbox|..]
  {
    ReplyFindsWaiter(w, s, p, arrival, now, sorted, id);
    var s2 := Dispatched(w, s, p, arrival, now, sorted);
    ReleasedSendsEnqueue(w, s2, Address.ToString(p.src), now, id);
    var push := DataPush(w, s.sends[id], KeyStore.Find(s2.store, s.sends[id].target).value, id);
    assert push in P.Process(w, s, p, arrival, now, sorted).outbox[|s.outbox|..];
  }

  lemma ReplyKey(w: P.World, s: P.State, p: P.Packet, arrival: P.Iface, now: int, sorted: seq<KeyStore.PubKey>)
    requires Inv(s) && SortChoice(w, s, p, now, sorted) && p.kind.PkReply? && P.IsToMe(s, p.dest)
    ensures KeyStore.Find(Dispatched(w, s, p, arrival, now, sorted).store, Address.ToString(p.src)).Some?
  {
    DispatchedKeeps(w, s, p, arrival, now, sorted);
  }

  lemma WaiterOf(s: P.State, id: nat)
    requires Inv(s) && id < |s.sends| && s.sends[id].phase.Waiting?
    ensures exists wt :: wt in s.waiters && wt.id == id && wt.target == s.sends[id].target
  {
    assert id in P.Ids(s.waiters) + [];
    IdsOfWaiters(s.waiters, id);
  }

  // ----- There and back -----

  /** Where a course of `hops` links from `port` ends, and through which interface. */
  function End(env: Env, kernels: seq<P.State>, port: Option<Port>, dest: Address.Address, hops: nat): Option<Port>
    decreases hops
  {
    if hops == 0 || port.None? || port.value.kernel >= |kernels| then port
    else End(env, kernels, Hop(env, kernels[port.value.kernel], port.value.kernel, dest), dest, hops - 1)
  }

  lemma {:induction false} EndFrame(
      env: Env, before: seq<P.State>, after: seq<P.State>, port: Option<Port>, dest: Address.Address, hops: nat)
    requires SameRouting(before, after) && Leads(env, before, port, dest, hops)
    ensures Leads(env, after, port, dest, hops)
    ensures End(env, after, port, dest, hops) == End(env, before, port, dest, hops)
    decreases hops
  {
    var s, s' := before[port.value.kernel], after[port.value.kernel];
    assert SameTables(s, s');
    if hops > 0 {
      EndFrame(env, before, after, Hop(env, s, port.value.kernel, dest), dest, hops - 1);
    }
  }

  /** A send under way: send `id` of kernel `k`, to `target` over `iface`. */
  datatype Fetch = Fetch(k: nat, id: nat, target: string, iface: P.Iface)

  ghost predicate IsSend(n: Net, q: Fetch) {
    && q.k < |n.kernels| && q.id < |n.kernels[q.k].sends|
    && var send := n.kernels[q.k].sends[q.id];
       send.target == q.target && send.iface == Some(q.iface) && Address.WellFormed(q.iface.addr)
  }

  /** From `port` the routes lead over `hops` links back to the kernel of the send. */
  ghost predicate LeadsHome(env: Env, kernels: seq<P.State>, q: Fetch, port: Option<Port>, hops: nat) {
    && Leads(env, kernels, port, q.iface.addr, hops)
    && End(env, kernels, port, q.iface.addr, hops).Some?
    && End(env, kernels, port, q.iface.addr, hops).value.kernel == q.k
  }

  /**
   * From `port` the routes lead over `hops` links to an interface whose address is the target, and from
   * there over `back` links home.
   */
  ghost predicate LeadsToOwner(env: Env, kernels: seq<P.State>, q: Fetch, port: Option<Port>, hops: nat, back: nat) {
    && Leads(env, kernels, port, Address.FromString(q.target), hops)
    && var end := End(env, kernels, port, Address.FromString(q.target), hops);
       && end.Some? && Address.ToString(end.value.iface.addr) == q.target
       && back < 64 && LeadsHome(env, kernels, q, env.wires(end.value.kernel, end.value.iface.name), back)
  }

  /** The request is in flight, on a course to the owner and back. */
  ghost predicate Asking(env: Env, kernels: seq<P.State>, q: Fetch, f: Flight, hops: nat, back: nat) {
    && f.packet.kind.PkAsk? && f.packet.src == q.iface.addr && f.packet.dest == Address.FromString(q.target)
    && (hops == 0 || hops < f.packet.ttl)
    && LeadsToOwner(env, kernels, q, env.wires(f.kernel, f.iface.name), hops, back)
  }

  /** The reply is in flight, on its way home. */
  ghost predicate Replying(env: Env, kernels: seq<P.State>, q: Fetch, f: Flight, back: nat) {
    && f.packet.kind.PkReply? && Address.ToString(f.packet.src) == q.target && f.packet.dest == q.iface.addr
    && (back == 0 || back < f.packet.ttl)
    && LeadsHome(env, kernels, q, env.wires(f.kernel, f.iface.name), back)
  }

  ghost predicate AskAt(env: Env, n: Net, q: Fetch, x: Id, hops: nat, back: nat) {
    exists f :: f in n.flights && f.id == x && Asking(env, n.kernels, q, f, hops, back)
  }

  ghost predicate ReplyAt(env: Env, n: Net, q: Fetch, y: Id, back: nat) {
    exists f :: f in n.flights && f.id == y && Replying(env, n.kernels, q, f, back)
  }

  /**
   * How far a fetch has come: the request is in flight, `hops` links from the owner; its reply is in flight,
   * `back` links from home; the send has transmitted; or it had ended when the reply came home.
   */
  datatype Stage = Ask(x: Id, hops: nat, back: nat) | Answer(y: Id, back: nat) | Sent | Ended

  ghost predicate Holds(env: Env, n: Net, q: Fetch, st: Stage) {
    IsSend(n, q) &&
    match st
    case Ask(x, hops, back) => AskAt(env, n, q, x, hops, back)
    case Answer(y, back) => ReplyAt(env, n, q, y, back)
    case Sent => Enqueued(n.kernels[q.k].sends[q.id].phase)
    case Ended => !n.kernels[q.k].sends[q.id].phase.Waiting?
  }

  /** The action processes the packet of this stage. */
  ghost predicate Advances(env: Env, n: Net, a: Action, st: Stage) {
    match st
    case Ask(x, _, _) => Handles(env, n, a, x)
    case Answer(y, _) => Handles(env, n, a, y)
    case _ => false
  }

  /** The stage after an action that processes its packet: a link further, or turned at either end. */
  ghost function Advanced(n: Net, q: Fetch, st: Stage): Stage {
    match st
    case Ask(x, hops, back) => if hops > 0 then Ask(x, hops - 1, back) else Answer(Control(n.next), back)
    case Answer(y, back) =>
      if back > 0 then Answer(y, back - 1)
      else if IsSend(n, q) && n.kernels[q.k].sends[q.id].phase.Waiting? then Sent
      else Ended
    case _ => st
  }

  ghost function Next(env: Env, n: Net, a: Action, q: Fetch, st: Stage): Stage {
    if Advances(env, n, a, st) then Advanced(n, q, st) else st
  }

  /** How often the packets of the fetch have yet to be processed. */
  function Remaining(st: Stage): nat {
    match st
    case Ask(_, hops, back) => hops + 1 + back + 1
    case Answer(_, back) => back + 1
    case _ => 0
  }

  /** The packet of the stage is not lost, and no change of routes or interfaces spoils its way. */
  ghost predicate SparesStage(env: Env, n: Net, a: Action, q: Fetch, st: Stage)
    requires KernelsOk(n)
  {
    var kernels' := Step(env, n, a).kernels;
    match st
    case Ask(x, hops, back) =>
      && (a.Lose? && a.i < |n.flights| ==> n.flights[a.i].id != x)
      && (Administers(a) ==> forall f :: f in n.flights && f.id == x && Asking(env, n.kernels, q, f, hops, back) ==>
            Asking(env, kernels', q, f, hops, back))
    case Answer(y, back) =>
      && (a.Lose? && a.i < |n.flights| ==> n.flights[a.i].id != y)
      && (Administers(a) ==> forall f :: f in n.flights && f.id == y && Replying(env, n.kernels, q, f, back) ==>
            Replying(env, kernels', q, f, back))
    case _ => true
  }

  // ----- One step -----

  lemma HomeFrame(env: Env, before: seq<P.State>, after: seq<P.State>, q: Fetch, port: Option<Port>, hops: nat)
    requires SameRouting(before, after) && LeadsHome(env, before, q, port, hops)
    ensures LeadsHome(env, after, q, port, hops)
  {
    EndFrame(env, before, after, port, q.iface.addr, hops);
  }

  lemma OwnerFrame(
      env: Env, before: seq<P.State>, after: seq<P.State>, q: Fetch, port: Option<Port>, hops: nat, back: nat)
    requires SameRouting(before, after) && LeadsToOwner(env, before, q, port, hops, back)
    ensures LeadsToOwner(env, after, q, port, hops, back)
  {
    var dest := Address.FromString(q.target);
    EndFrame(env, before, after, port, dest, hops);
    var end := End(env, before, port, dest, hops).value;
    HomeFrame(env, before, after, q, env.wires(end.kernel, end.iface.name), back);
  }

  lemma NowAsking(env: Env, n: Net, n': Net, q: Fetch, f: Flight, hops: nat, back: nat)
    requires SameRouting(n.kernels, n'.kernels) && Asking(env, n.kernels, q, f, hops, back) && f in n'.flights
    ensures AskAt(env, n', q, f.id, hops, back)
  {
    OwnerFrame(env, n.kernels, n'.kernels, q, env.wires(f.kernel, f.iface.name), hops, back);
    assert Asking(env, n'.kernels, q, f, hops, back);
  }

  lemma NowReplying(env: Env, n: Net, n': Net, q: Fetch, f: Flight, back: nat)
    requires SameRouting(n.kernels, n'.kernels) && Replying(env, n.kernels, q, f, back) && f in n'.flights
    ensures ReplyAt(env, n', q, f.id, back)
  {
    HomeFrame(env, n.kernels, n'.kernels, q, env.wires(f.kernel, f.iface.name), back);
    assert Replying(env, n'.kernels, q, f, back);
  }

  /** One link further the course is one link shorter, and its end the same. */
  lemma CourseShortens(env: Env, kernels: seq<P.State>, f: Flight, hops: nat, k: nat, iface: P.Iface)
    requires Leads(env, kernels, env.wires(f.kernel, f.iface.name), f.packet.dest, hops) && hops > 0
    requires k == env.wires(f.kernel, f.iface.name).value.kernel
    requires P.SelectRoute(env.w, kernels[k], Address.ToString(f.packet.dest)) == P.Via(iface)
    ensures Leads(env, kernels, env.wires(k, iface.name), f.packet.dest, hops - 1)
    ensures End(env, kernels, env.wires(k, iface.name), f.packet.dest, hops - 1) ==
            End(env, kernels, env.wires(f.kernel, f.iface.name), f.packet.dest, hops)
  {
    assert Hop(env, kernels[k], k, f.packet.dest) == env.wires(k, iface.name);
  }

  /** The kernel at which a flight arrives passes it on over an interface. */
  predicate PassesOn(env: Env, kernels: seq<P.State>, f: Flight, k: nat, iface: P.Iface) {
    && env.wires(f.kernel, f.iface.name).Some? && k == env.wires(f.kernel, f.iface.name).value.kernel < |kernels|
    && P.SelectRoute(env.w, kernels[k], Address.ToString(f.packet.dest)) == P.Via(iface)
  }

  lemma AskingOnward(env: Env, kernels: seq<P.State>, q: Fetch, f: Flight, hops: nat, back: nat, k: nat, iface: P.Iface)
    requires Asking(env, kernels, q, f, hops, back) && hops > 0 && PassesOn(env, kernels, f, k, iface)
    ensures Asking(env, kernels, q, Onward(f, k, iface), hops - 1, back)
  {
    CourseShortens(env, kernels, f, hops, k, iface);
  }

  lemma ReplyingOnward(env: Env, kernels: seq<P.State>, q: Fetch, f: Flight, back: nat, k: nat, iface: P.Iface)
    requires Replying(env, kernels, q, f, back) && back > 0 && PassesOn(env, kernels, f, k, iface)
    ensures Replying(env, kernels, q, Onward(f, k, iface), back - 1)
  {
    CourseShortens(env, kernels, f, back, k, iface);
  }

  /** A flight short of its destination is passed on by the step that processes it. */
  lemma PassedOn(env: Env, n: Net, a: Action, f: Flight, hops: nat) returns (iface: P.Iface)
    requires KernelsOk(n) && a.Receive? && Enabled(env, n, a) && n.flights[a.i] == f
    requires Bound(env, n.kernels, f, hops) && hops > 0
    ensures PassesOn(env, n.kernels, f, Actor(env, n, a), iface)
    ensures Onward(f, Actor(env, n, a), iface) in Step(env, n, a).flights
    ensures SameRouting(n.kernels, Step(env, n, a).kernels)
  {
    iface := HopSelects(env, n, a, f, hops);
    HopInFlight(env, n, a, f, iface);
    StepKeepsRouting(env, n, a);
  }

  lemma HopAsks(env: Env, n: Net, n': Net, q: Fetch, f: Flight, hops: nat, back: nat, k: nat, iface: P.Iface)
    requires SameRouting(n.kernels, n'.kernels) && PassesOn(env, n.kernels, f, k, iface)
    requires Asking(env, n.kernels, q, f, hops, back) && hops > 0 && Onward(f, k, iface) in n'.flights
    ensures AskAt(env, n', q, f.id, hops - 1, back)
  {
    AskingOnward(env, n.kernels, q, f, hops, back, k, iface);
    NowAsking(env, n, n', q, Onward(f, k, iface), hops - 1, back);
  }

  lemma HopReplies(env: Env, n: Net, n': Net, q: Fetch, f: Flight, back: nat, k: nat, iface: P.Iface)
    requires SameRouting(n.kernels, n'.kernels) && PassesOn(env, n.kernels, f, k, iface)
    requires Replying(env, n.kernels, q, f, back) && back > 0 && Onward(f, k, iface) in n'.flights
    ensures ReplyAt(env, n', q, f.id, back - 1)
  {
    ReplyingOnward(env, n.kernels, q, f, back, k, iface);
    NowReplying(env, n, n', q, Onward(f, k, iface), back - 1);
  }

  /** At the owner the request turns into the reply. */
  lemma OwnerReplies(env: Env, n: Net, a: Action, q: Fetch, f: Flight, back: nat)
    requires KernelsOk(n) && a.Receive? && Enabled(env, n, a) && n.flights[a.i] == f && IsSend(n, q)
    requires Asking(env, n.kernels, q, f, 0, back)
    ensures ReplyAt(env, Step(env, n, a), q, Control(n.next), back)
  {
    AskIsAnswered(env, n, a);
    Address.RoundTrip(q.iface.addr);
    var arrival := Destination(env, n, a.i).value.iface;
    var reply := P.ReplyPacket(env.w, arrival, Address.ToString(f.packet.src));
    var f' := Flight(Control(n.next), Actor(env, n, a), arrival, reply);
    assert Replying(env, n.kernels, q, f', back);
    StepKeepsRouting(env, n, a);
    NowReplying(env, n, Step(env, n, a), q, f', back);
  }

  lemma SendAfter(env: Env, n: Net, a: Action, k: nat, id: nat)
    requires KernelsOk(n) && k < |n.kernels| && id < |n.kernels[k].sends|
    ensures var n' := Step(env, n, a);
            k < |n'.kernels| && id < |n'.kernels[k].sends| && SameSend(n.kernels[k].sends[id], n'.kernels[k].sends[id])
  {
    if Enabled(env, n, a) && !a.Lose? {
      MovedKeeps(env, n, a);
      assert Actor(env, n, a) == k ==> SameSend(n.kernels[k].sends[id], Moved(env, n, a).sends[id]);
    }
  }

  lemma SendStays(env: Env, n: Net, a: Action, q: Fetch)
    requires KernelsOk(n) && IsSend(n, q)
    ensures IsSend(Step(env, n, a), q)
  {
    SendAfter(env, n, a, q.k, q.id);
  }

  /** A send whose data packet is enqueued counts it for good. */
  lemma EnqueuedStays(s: P.State, s': P.State, id: nat)
    requires Inv(s) && Inv(s') && Grows(s, s') && id < |s.sends| && Enqueued(s.sends[id].phase)
    ensures id < |s'.sends| && Enqueued(s'.sends[id].phase)
  {
    var more := s'.outbox[|s.outbox|..];
    assert s'.outbox == s.outbox + more;
    CountTagAppend(s.outbox, more, P.Data(id));
    assert SendOk(s, id) && SendOk(s', id);
  }

  lemma EndStays(env: Env, n: Net, a: Action, q: Fetch, st: Stage)
    requires KernelsOk(n) && Holds(env, n, q, st) && (st.Sent? || st.Ended?)
    ensures Holds(env, Step(env, n, a), q, st)
  {
    SendAfter(env, n, a, q.k, q.id);
    if st.Sent? && Enabled(env, n, a) && !a.Lose? {
      MovedKeeps(env, n, a);
      assert Inv(n.kernels[q.k]);
      if Actor(env, n, a) == q.k {
        EnqueuedStays(n.kernels[q.k], Moved(env, n, a), q.id);
      }
    }
  }

  /** At home the reply makes a waiting send transmit; a send that had ended stays so. */
  lemma HomeTransmits(env: Env, n: Net, a: Action, q: Fetch, f: Flight)
    requires KernelsOk(n) && a.Receive? && Enabled(env, n, a) && n.flights[a.i] == f && IsSend(n, q)
    requires Replying(env, n.kernels, q, f, 0)
    ensures Holds(env, Step(env, n, a), q, if n.kernels[q.k].sends[q.id].phase.Waiting? then Sent else Ended)
  {
    SendAfter(env, n, a, q.k, q.id);
    var s := n.kernels[q.k];
    if s.sends[q.id].phase.Waiting? {
      assert Inv(s) && Actor(env, n, a) == q.k;
      ReplyTransmits(env.w, s, f.packet, Destination(env, n, a.i).value.iface, a.now, a.sorted, q.id);
      MovedKeeps(env, n, a);
    }
  }

  lemma {:induction false} DataLaunches(k: nat, pushes: seq<P.Push>, via: Option<Id>, m: nat, push: P.Push)
    requires push in pushes && push.tag.Data?
    ensures Flight(DataOf(k, push.tag.id), k, push.iface, push.packet) in Launch(k, pushes, via, m)
    decreases |pushes|
  {
    if pushes[0] != push {
      DataLaunches(k, pushes[1..], via, m + 1, push);
    }
  }

  lemma DataInFlight(n: Net, k: nat, s: P.State, via: Option<Id>, push: P.Push)
    requires k < |n.kernels| && n.kernels[k].outbox <= s.outbox && n.kernels[k].recv <= s.recv
    requires push in s.outbox[|n.kernels[k].outbox|..] && push.tag.Data?
    ensures Flight(DataOf(k, push.tag.id), k, push.iface, push.packet) in Absorb(n, k, s, via).flights
  {
    DataLaunches(k, s.outbox[|n.kernels[k].outbox|..], via, n.next, push);
  }

  lemma ReplyLaunches(env: Env, n: Net, a: Action, q: Fetch, f: Flight) returns (f': Flight)
    requires KernelsOk(n) && a.Receive? && Enabled(env, n, a) && n.flights[a.i] == f && IsSend(n, q)
    requires Replying(env, n.kernels, q, f, 0) && n.kernels[q.k].sends[q.id].phase.Waiting?
    ensures f' in Step(env, n, a).flights && f'.id == DataOf(q.k, q.id) && f'.kernel == q.k && f'.iface == q.iface
    ensures f'.packet.dest == Address.FromString(q.target) && f'.packet.ttl == 64
  {
    var s, s' := n.kernels[q.k], Moved(env, n, a);
    assert Inv(s) && Actor(env, n, a) == q.k;
    ReplyEnqueues(env.w, s, f.packet, Destination(env, n, a.i).value.iface, a.now, a.sorted, q.id);
    var key :| DataPush(env.w, s.sends[q.id], key, q.id) in s'.outbox[|s.outbox|..];
    var push := DataPush(env.w, s.sends[q.id], key, q.id);
    MovedKeeps(env, n, a);
    DataInFlight(Before(env, n, a), q.k, s', Some(f.id), push);
    f' := Flight(DataOf(q.k, q.id), q.k, q.iface, push.packet);
  }

  /**
   * The reply that ends the wait sets the data packet out: on a course to the target, if the routes lead
   * there over fewer links than the initial time to live. From here on it is carried by `Journey`.
   */
  lemma ReplySetsOut(env: Env, n: Net, a: Action, q: Fetch, f: Flight, hops: nat)
    requires KernelsOk(n) && a.Receive? && Enabled(env, n, a) && n.flights[a.i] == f && IsSend(n, q)
    requires Replying(env, n.kernels, q, f, 0) && n.kernels[q.k].sends[q.id].phase.Waiting?
    requires Leads(env, n.kernels, env.wires(q.k, q.iface.name), Address.FromString(q.target), hops)
    requires hops < 64
    ensures OnCourse(env, Step(env, n, a), DataOf(q.k, q.id), hops)
  {
    var f' := ReplyLaunches(env, n, a, q, f);
    StillOnCourse(env, n, a, f', hops);
  }

  lemma AskStays(env: Env, n: Net, a: Action, q: Fetch, f: Flight, hops: nat, back: nat)
    requires KernelsOk(n) && f in n.flights && Asking(env, n.kernels, q, f, hops, back)
    requires SparesStage(env, n, a, q, Ask(f.id, hops, back)) && !Handles(env, n, a, f.id)
    ensures AskAt(env, Step(env, n, a), q, f.id, hops, back)
  {
    OthersStay(env, n, a, f);
    if Administers(a) {
      assert Asking(env, Step(env, n, a).kernels, q, f, hops, back);
    } else {
      StepKeepsRouting(env, n, a);
      NowAsking(env, n, Step(env, n, a), q, f, hops, back);
    }
  }

  lemma ReplyStays(env: Env, n: Net, a: Action, q: Fetch, f: Flight, back: nat)
    requires KernelsOk(n) && f in n.flights && Replying(env, n.kernels, q, f, back)
    requires SparesStage(env, n, a, q, Answer(f.id, back)) && !Handles(env, n, a, f.id)
    ensures ReplyAt(env, Step(env, n, a), q, f.id, back)
  {
    OthersStay(env, n, a, f);
    if Administers(a) {
      assert Replying(env, Step(env, n, a).kernels, q, f, back);
    } else {
      StepKeepsRouting(env, n, a);
      NowReplying(env, n, Step(env, n, a), q, f, back);
    }
  }

  lemma AskMoves(env: Env, n: Net, a: Action, q: Fetch, f: Flight, hops: nat, back: nat)
    requires KernelsOk(n) && a.Receive? && Enabled(env, n, a) && n.flights[a.i] == f && IsSend(n, q)
    requires Asking(env, n.kernels, q, f, hops, back)
    ensures if hops > 0 then AskAt(env, Step(env, n, a), q, f.id, hops - 1, back)
            else ReplyAt(env, Step(env, n, a), q, Control(n.next), back)
  {
    if hops > 0 {
      var iface := PassedOn(env, n, a, f, hops);
      HopAsks(env, n, Step(env, n, a), q, f, hops, back, Actor(env, n, a), iface);
    } else {
      OwnerReplies(env, n, a, q, f, back);
    }
  }

  lemma ReplyMoves(env: Env, n: Net, a: Action, q: Fetch, f: Flight, back: nat)
    requires KernelsOk(n) && a.Receive? && Enabled(env, n, a) && n.flights[a.i] == f
    requires Replying(env, n.kernels, q, f, back) && back > 0
    ensures ReplyAt(env, Step(env, n, a), q, f.id, back - 1)
  {
    var iface := PassedOn(env, n, a, f, back);
    HopReplies(env, n, Step(env, n, a), q, f, back, Actor(env, n, a), iface);
  }

  lemma HoldsAsk(env: Env, n: Net, q: Fetch, x: Id, hops: nat, back: nat)
    requires IsSend(n, q) && AskAt(env, n, q, x, hops, back)
    ensures Holds(env, n, q, Ask(x, hops, back))
  {
  }

  lemma HoldsAnswer(env: Env, n: Net, q: Fetch, y: Id, back: nat)
    requires IsSend(n, q) && ReplyAt(env, n, q, y, back)
    ensures Holds(env, n, q, Answer(y, back))
  {
  }

  lemma AskAdvances(env: Env, n: Net, a: Action, q: Fetch, x: Id, hops: nat, back: nat)
    requires KernelsOk(n) && OnePlace(n) && IsSend(n, q) && AskAt(env, n, q, x, hops, back) && Handles(env, n, a, x)
    ensures Holds(env, Step(env, n, a), q, Advanced(n, q, Ask(x, hops, back)))
  {
    var f :| f in n.flights && f.id == x && Asking(env, n.kernels, q, f, hops, back);
    SendStays(env, n, a, q);
    SameFlight(n, f, a.i);
    AskMoves(env, n, a, q, f, hops, back);
    if hops > 0 {
      HoldsAsk(env, Step(env, n, a), q, x, hops - 1, back);
    } else {
      HoldsAnswer(env, Step(env, n, a), q, Control(n.next), back);
    }
  }

  lemma AskRemains(env: Env, n: Net, a: Action, q: Fetch, x: Id, hops: nat, back: nat)
    requires KernelsOk(n) && IsSend(n, q) && AskAt(env, n, q, x, hops, back) && !Handles(env, n, a, x)
    requires SparesStage(env, n, a, q, Ask(x, hops, back))
    ensures Holds(env, Step(env, n, a), q, Ask(x, hops, back))
  {
    var f :| f in n.flights && f.id == x && Asking(env, n.kernels, q, f, hops, back);
    SendStays(env, n, a, q);
    AskStays(env, n, a, q, f, hops, back);
    HoldsAsk(env, Step(env, n, a), q, x, hops, back);
  }

  lemma ReplyAdvances(env: Env, n: Net, a: Action, q: Fetch, y: Id, back: nat)
    requires KernelsOk(n) && OnePlace(n) && IsSend(n, q) && ReplyAt(env, n, q, y, back) && Handles(env, n, a, y)
    requires back > 0
    ensures Holds(env, Step(env, n, a), q, Answer(y, back - 1))
  {
    var f :| f in n.flights && f.id == y && Replying(env, n.kernels, q, f, back);
    SendStays(env, n, a, q);
    SameFlight(n, f, a.i);
    ReplyMoves(env, n, a, q, f, back);
    HoldsAnswer(env, Step(env, n, a), q, y, back - 1);
  }

  lemma ReplyArrives(env: Env, n: Net, a: Action, q: Fetch, y: Id)
    requires KernelsOk(n) && OnePlace(n) && IsSend(n, q) && ReplyAt(env, n, q, y, 0) && Handles(env, n, a, y)
    ensures Holds(env, Step(env, n, a), q, if n.kernels[q.k].sends[q.id].phase.Waiting? then Sent else Ended)
  {
    var f :| f in n.flights && f.id == y && Replying(env, n.kernels, q, f, 0);
    SameFlight(n, f, a.i);
    HomeTransmits(env, n, a, q, f);
  }

  lemma ReplyRemains(env: Env, n: Net, a: Action, q: Fetch, y: Id, back: nat)
    requires KernelsOk(n) && IsSend(n, q) && ReplyAt(env, n, q, y, back) && !Handles(env, n, a, y)
    requires SparesStage(env, n, a, q, Answer(y, back))
    ensures Holds(env, Step(env, n, a), q, Answer(y, back))
  {
    var f :| f in n.flights && f.id == y && Replying(env, n.kernels, q, f, back);
    SendStays(env, n, a, q);
    ReplyStays(env, n, a, q, f, back);
    HoldsAnswer(env, Step(env, n, a), q, y, back);
  }

  lemma StepAsking(env: Env, n: Net, a: Action, q: Fetch, x: Id, hops: nat, back: nat)
    requires KernelsOk(n) && OnePlace(n) && IsSend(n, q) && AskAt(env, n, q, x, hops, back)
    requires SparesStage(env, n, a, q, Ask(x, hops, back))
    ensures Holds(env, Step(env, n, a), q, Next(env, n, a, q, Ask(x, hops, back)))
  {
    if Handles(env, n, a, x) {
      AskAdvances(env, n, a, q, x, hops, back);
    } else {
      AskRemains(env, n, a, q, x, hops, back);
    }
  }

  lemma StepReplying(env: Env, n: Net, a: Action, q: Fetch, y: Id, back: nat)
    requires KernelsOk(n) && OnePlace(n) && IsSend(n, q) && ReplyAt(env, n, q, y, back)
    requires SparesStage(env, n, a, q, Answer(y, back))
    ensures Holds(env, Step(env, n, a), q, Next(env, n, a, q, Answer(y, back)))
  {
    if !Handles(env, n, a, y) {
      ReplyRemains(env, n, a, q, y, back);
    } else if back > 0 {
      ReplyAdvances(env, n, a, q, y, back);
    } else {
      ReplyArrives(env, n, a, q, y);
    }
  }

  /** One step, whatever it is: the fetch advances if its packet is processed, and stays where it is if not. */
  lemma StepFetching(env: Env, n: Net, a: Action, q: Fetch, st: Stage)
    requires KernelsOk(n) && OnePlace(n) && Holds(env, n, q, st) && SparesStage(env, n, a, q, st)
    ensures Holds(env, Step(env, n, a), q, Next(env, n, a, q, st))
    ensures Remaining(Next(env, n, a, q, st)) == Remaining(st) - if Advances(env, n, a, st) then 1 else 0
  {
    match st
    case Ask(x, hops, back) => StepAsking(env, n, a, q, x, hops, back);
    case Answer(y, back) => StepReplying(env, n, a, q, y, back);
    case _ => EndStays(env, n, a, q, st);
  }

  // ----- Runs -----

  ghost predicate RunSparesStage(env: Env, n: Net, actions: seq<Action>, q: Fetch, st: Stage)
    requires KernelsOk(n)
    decreases |actions|
  {
    actions == [] || (
      StepKeepsKernels(env, n, actions[0]);
      && SparesStage(env, n, actions[0], q, st)
      && RunSparesStage(env, Step(env, n, actions[0]), actions[1..], q, Next(env, n, actions[0], q, st)))
  }

  ghost function StageAfter(env: Env, n: Net, actions: seq<Action>, q: Fetch, st: Stage): Stage
    requires KernelsOk(n)
    decreases |actions|
  {
    if actions == [] then st
    else
      StepKeepsKernels(env, n, actions[0]);
      StageAfter(env, Step(env, n, actions[0]), actions[1..], q, Next(env, n, actions[0], q, st))
  }

  /** How often a run processes the packet that the fetch is then about. */
  ghost function Advancing(env: Env, n: Net, actions: seq<Action>, q: Fetch, st: Stage): nat
    requires KernelsOk(n)
    decreases |actions|
  {
    if actions == [] then 0
    else
      StepKeepsKernels(env, n, actions[0]);
      (if Advances(env, n, actions[0], st) then 1 else 0)
      + Advancing(env, Step(env, n, actions[0]), actions[1..], q, Next(env, n, actions[0], q, st))
  }

  lemma {:induction false} RunFetching(env: Env, n: Net, actions: seq<Action>, q: Fetch, st: Stage)
    requires KernelsOk(n) && OnePlace(n) && Holds(env, n, q, st) && RunSparesStage(env, n, actions, q, st)
    ensures Holds(env, Run(env, n, actions), q, StageAfter(env, n, actions, q, st))
    decreases |actions|
  {
    if actions != [] {
      StepKeepsKernels(env, n, actions[0]);
      StepKeepsOnePlace(env, n, actions[0]);
      StepFetching(env, n, actions[0], q, st);
      RunFetching(env, Step(env, n, actions[0]), actions[1..], q, Next(env, n, actions[0], q, st));
    }
  }

  /** Every processing of the fetch's packet brings it one nearer to its end. */
  lemma {:induction false} RemainingCounts(env: Env, n: Net, actions: seq<Action>, q: Fetch, st: Stage)
    requires KernelsOk(n)
    ensures Remaining(StageAfter(env, n, actions, q, st)) + Advancing(env, n, actions, q, st) == Remaining(st)
    decreases |actions|
  {
    if actions != [] {
      StepKeepsKernels(env, n, actions[0]);
      RemainingCounts(env, Step(env, n, actions[0]), actions[1..], q, Next(env, n, actions[0], q, st));
    }
  }

  /** The fetch that a send without a key begins. */
  ghost predicate Begins(env: Env, n: Net, a: Action, q: Fetch, hops: nat, back: nat) {
    && a.Send? && a.k < |n.kernels| && q == Fetch(a.k, |n.kernels[a.k].sends|, a.target, q.iface)
    && P.SelectRoute(env.w, n.kernels[a.k], a.target) == P.Via(q.iface) && Address.WellFormed(q.iface.addr)
    && KeyStore.Find(n.kernels[a.k].store, a.target).None?
    && hops < 64 && LeadsToOwner(env, n.kernels, q, env.wires(a.k, q.iface.name), hops, back)
  }

  lemma FetchBegins(env: Env, n: Net, a: Action, q: Fetch, hops: nat, back: nat)
    requires KernelsOk(n) && Begins(env, n, a, q, hops, back)
    ensures Holds(env, Step(env, n, a), q, Ask(Control(n.next), hops, back))
  {
    AskSetsOut(env, n, a, q.iface);
    StepKeepsRouting(env, n, a);
    var ask := Flight(Control(n.next), a.k, q.iface, P.AskPacket(q.iface, a.target));
    NowAsking(env, n, Step(env, n, a), q, ask, hops, back);
  }

  /**
   * A send without a key, over routes that lead its request to an interface with the target's address and
   * the reply home. However the run goes on, as long as request and reply are neither lost nor diverted: up
   * to its `hops`-th processing the request is in flight, that much nearer to the owner; one more turns it
   * into the reply; up to the `back`-th processing of that it is in flight, that much nearer to home; and
   * one more makes the send transmit, unless it had ended by then.
   */
  lemma KeyIsFetched(
      env: Env, n: Net, a: Action, q: Fetch, hops: nat, back: nat, n': Net, actions: seq<Action>)
    requires KernelsOk(n) && OnePlace(n) && Begins(env, n, a, q, hops, back) && n' == Step(env, n, a) && KernelsOk(n')
    requires RunSparesStage(env, n', actions, q, Ask(Control(n.next), hops, back))
    ensures var st := StageAfter(env, n', actions, q, Ask(Control(n.next), hops, back));
            && Holds(env, Run(env, n', actions), q, st)
            && Remaining(st) + Advancing(env, n', actions, q, Ask(Control(n.next), hops, back)) == hops + back + 2
  {
    FetchBegins(env, n, a, q, hops, back);
    StepKeepsOnePlace(env, n, a);
    RunFetching(env, n', actions, q, Ask(Control(n.next), hops, back));
    RemainingCounts(env, n', actions, q, Ask(Control(n.next), hops, back));
  }

  /** The reply comes home to a waiting send: its data packet sets out. */
  lemma DataSetsOut(env: Env, n: Net, a: Action, q: Fetch, y: Id, far: nat)
    requires KernelsOk(n) && OnePlace(n) && Holds(env, n, q, Answer(y, 0)) && Handles(env, n, a, y)
    requires n.kernels[q.k].sends[q.id].phase.Waiting? && far < 64
    requires Leads(env, n.kernels, env.wires(q.k, q.iface.name), Address.FromString(q.target), far)
    ensures OnCourse(env, Step(env, n, a), DataOf(q.k, q.id), far)
  {
    var f :| f in n.flights && f.id == y && Replying(env, n.kernels, q, f, 0);
    SameFlight(n, f, a.i);
    ReplySetsOut(env, n, a, q, f, far);
  }

  /**
   * From the send to the delivery. In an honest network, a send without a key (step `a`) has its key fetched
   * (run `fetch`), the reply comes home while it waits (step `home`), and its data is carried over `far`
   * links (run `carry`): `left` links remain, or it is delivered, genuinely and once.
   */
  lemma KeylessSendIsDelivered(
      r: Realm, env: Env, n: Net, a: Action, q: Fetch, hops: nat, back: nat, n1: Net, fetch: seq<Action>, y: Id,
      n2: Net, home: Action, far: nat, n3: Net, carry: seq<Action>, left: int)
    requires HonestEnv(r, env) && Reached(r, env, n) && HonestActions(r, fetch) && HonestActions(r, carry)
    requires KernelsOk(n) && Begins(env, n, a, q, hops, back) && n1 == Step(env, n, a) && KernelsOk(n1)
    requires RunSparesStage(env, n1, fetch, q, Ask(Control(n.next), hops, back)) && n2 == Run(env, n1, fetch)
    requires StageAfter(env, n1, fetch, q, Ask(Control(n.next), hops, back)) == Answer(y, 0)
    requires KernelsOk(n2) && Handles(env, n2, home, y) && n3 == Step(env, n2, home) && KernelsOk(n3)
    requires q.k < |n2.kernels| && q.id < |n2.kernels[q.k].sends| && n2.kernels[q.k].sends[q.id].phase.Waiting?
    requires far < 64
    requires Leads(env, n2.kernels, env.wires(q.k, q.iface.name), Address.FromString(q.target), far)
    requires RunSpares(env, n3, carry, DataOf(q.k, q.id))
    requires left == far - Handlings(env, n3, carry, DataOf(q.k, q.id))
    ensures var n' := Run(env, n3, carry);
            && Progress(env, n', DataOf(q.k, q.id), left)
            && forall d :: d in n'.log && d.id == DataOf(q.k, q.id) ==> Genuine(r, n', d)
  {
    ReachedIsSound(r, env, n);
    KeyIsFetched(env, n, a, q, hops, back, n1, fetch);
    ReachedStep(r, env, n, a);
    RunReached(r, env, n1, fetch);
    ReachedIsSound(r, env, n2);
    DataSetsOut(env, n2, home, q, y, far);
    ReachedStep(r, env, n2, home);
    CarriedToDestination(r, env, n3, DataOf(q.k, q.id), far, carry, left);
  }
}
