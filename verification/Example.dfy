/**
 * Two kernels and one link: a send without a key fetches it, and its data is delivered. The run shows
 * that what `KeyFetch` and `Journey` assume of a network can be met, by a toy key that only pads.
 */
module Example {
  import opened Std
  import opened KernelInvariant
  import opened KernelEffects
  import opened Honesty
  import opened Network
  import opened Integrity
  import opened Journey
  import opened KeyFetch
  import Address
  import Cipher
  import KeyStore
  import RouteTable
  import P = Protocol

  const ALICE: Address.Address := Address.Address("a", "x", None)
  const BOB: Address.Address := Address.Address("b", "x", None)
  const KEY_A: KeyStore.Modulus := [1]
  const KEY_B: KeyStore.Modulus := [2]
  const SIDE_A: P.Iface := P.Iface("link", ALICE, KEY_A)
  const SIDE_B: P.Iface := P.Iface("link", BOB, KEY_B)
  const ROUTE: RouteTable.Route := RouteTable.Route(".*", "", "link", 1)

  function ToyWorld(): P.World {
    P.World(_ => Cipher.PaddingOnly(12), k => k, c => c, (_, _) => true)
  }

  function ToyRealm(): Realm {
    Realm(ToyWorld(), (user, _) => if user == "a" then KEY_A else KEY_B, k => if k == 0 then KEY_A else KEY_B)
  }

  /** Kernel 0 is at one end of the link, kernel 1 at the other. */
  function ToyEnv(): Env {
    Env(ToyWorld(), (k, _) => Some(if k == 0 then Port(1, SIDE_B) else Port(0, SIDE_A)))
  }

  lemma ToyIsHonest()
    ensures HonestIface(ToyRealm(), 0, SIDE_A) && HonestIface(ToyRealm(), 1, SIDE_B)
    ensures HonestEnv(ToyRealm(), ToyEnv())
  {
    Cipher.PaddingOnlyMeetsContract(12);
    assert "a" != "b" by { assert "a"[0] != "b"[0]; }
  }

  /** Administration changes the one kernel and nothing else. */
  lemma AdminStep(env: Env, n: Net, a: Action)
    requires KernelsOk(n) && Enabled(env, n, a) && Administers(a)
    ensures Step(env, n, a) == n.(kernels := n.kernels[a.k := Moved(env, n, a)])
  {
    MovedKeeps(env, n, a);
    var s, s' := n.kernels[a.k], Moved(env, n, a);
    assert s'.outbox[|s.outbox|..] == [] && s'.recv[|s.recv|..] == [];
    assert n.flights + [] == n.flights && n.log + [] == n.log;
  }

  /** An idle kernel with the link and the route. */
  function Ready(iface: P.Iface): P.State {
    P.Initial().(ifs := map["link" := iface], routes := [ROUTE])
  }

  ghost predicate Honestly(n: Net) {
    KernelsOk(n) && Reached(ToyRealm(), ToyEnv(), n)
  }

  lemma HonestStep(n: Net, a: Action)
    requires Honestly(n) && (a.AddInterface? ==> HonestIface(ToyRealm(), a.k, a.iface))
    ensures Honestly(Step(ToyEnv(), n, a))
  {
    StepKeepsKernels(ToyEnv(), n, a);
    ReachedStep(ToyRealm(), ToyEnv(), n, a);
  }

  lemma SetUpOne(n: Net, k: nat, iface: P.Iface) returns (n': Net)
    requires Honestly(n) && k < |n.kernels| && n.kernels[k] == P.Initial()
    requires HonestIface(ToyRealm(), k, iface) && iface.name == "link"
    ensures Honestly(n') && n' == n.(kernels := n.kernels[k := Ready(iface)])
  {
    var a := AddInterface(k, iface);
    AdminStep(ToyEnv(), n, a);
    HonestStep(n, a);
    var n1 := Step(ToyEnv(), n, a);
    var b := AddRoute(k, ROUTE, [ROUTE]);
    assert [] + [ROUTE] == [ROUTE];
    AdminStep(ToyEnv(), n1, b);
    HonestStep(n1, b);
    n' := Step(ToyEnv(), n1, b);
  }

  lemma SetUp() returns (n: Net)
    ensures Honestly(n) && n.kernels == [Ready(SIDE_A), Ready(SIDE_B)] && n.flights == []
  {
    var n0 := Initial(2);
    ToyIsHonest();
    assert Run(ToyEnv(), Initial(2), []) == n0;
    assert HonestActions(ToyRealm(), []);
    var n1 := SetUpOne(n0, 0, SIDE_A);
    n := SetUpOne(n1, 1, SIDE_B);
  }

  /** Both ends are in reach of each other. */
  lemma InReach(kernels: seq<P.State>)
    requires |kernels| == 2 && SameTables(Ready(SIDE_A), kernels[0]) && SameTables(Ready(SIDE_B), kernels[1])
    ensures P.IsToMe(kernels[0], ALICE) && P.IsToMe(kernels[1], BOB)
    ensures P.SelectRoute(ToyEnv().w, kernels[0], Address.ToString(BOB)) == P.Via(SIDE_A)
    ensures Address.FromString(Address.ToString(BOB)) == BOB && Address.FromString(Address.ToString(ALICE)) == ALICE
    ensures Leads(ToyEnv(), kernels, ToyEnv().wires(0, "link"), BOB, 0)
    ensures Leads(ToyEnv(), kernels, ToyEnv().wires(1, "link"), ALICE, 0)
  {
    assert "link" in kernels[0].ifs && "link" in kernels[1].ifs;
    Address.RoundTrip(ALICE);
    Address.RoundTrip(BOB);
  }

  function TheSend(data: Cipher.Bytes): Action {
    Send(0, Address.ToString(BOB), data, 0, 0)
  }

  function TheFetch(): Fetch {
    Fetch(0, 0, Address.ToString(BOB), SIDE_A)
  }

  lemma FlightAt(n: Net, f: Flight) returns (i: nat)
    requires f in n.flights
    ensures i < |n.flights| && n.flights[i] == f
  {
    i :| i < |n.flights| && n.flights[i] == f;
  }

  /** The network of the example, with its send waiting for the key. */
  ghost predicate InWait(n: Net) {
    && Honestly(n) && |n.kernels| == 2
    && SameTables(Ready(SIDE_A), n.kernels[0]) && SameTables(Ready(SIDE_B), n.kernels[1])
    && IsSend(n, TheFetch()) && n.kernels[0].sends[0].phase.Waiting?
  }

  lemma NowInWait(n0: Net, n: Net)
    requires Honestly(n) && n0.kernels == [Ready(SIDE_A), Ready(SIDE_B)] && SameRouting(n0.kernels, n.kernels)
    requires |n.kernels[0].sends| > 0 && n.kernels[0].sends[0].phase.Waiting?
    requires n.kernels[0].sends[0].target == Address.ToString(BOB) && n.kernels[0].sends[0].iface == Some(SIDE_A)
    ensures InWait(n)
  {
    assert SameTables(n0.kernels[0], n.kernels[0]) && SameTables(n0.kernels[1], n.kernels[1]);
  }

  /** After the send the request is in flight. */
  lemma Asked(data: Cipher.Bytes) returns (n: Net, f: Flight)
    ensures InWait(n) && f in n.flights
    ensures f.kernel == 0 && f.iface == SIDE_A && f.packet == P.AskPacket(SIDE_A, Address.ToString(BOB))
    ensures n.kernels[0].sends[0].data == data
  {
    var n0 := SetUp();
    InReach(n0.kernels);
    AskSetsOut(ToyEnv(), n0, TheSend(data), SIDE_A);
    HonestStep(n0, TheSend(data));
    StepKeepsRouting(ToyEnv(), n0, TheSend(data));
    n := Step(ToyEnv(), n0, TheSend(data));
    f := Flight(Control(n0.next), 0, SIDE_A, P.AskPacket(SIDE_A, Address.ToString(BOB)));
    NowInWait(n0, n);
  }

  lemma OtherKernelStays(n: Net, a: Action, k: nat)
    requires KernelsOk(n) && Enabled(ToyEnv(), n, a) && !a.Lose? && k < |n.kernels| && Actor(ToyEnv(), n, a) != k
    ensures k < |Step(ToyEnv(), n, a).kernels| && Step(ToyEnv(), n, a).kernels[k] == n.kernels[k]
  {
    MovedKeeps(ToyEnv(), n, a);
  }

  lemma AnsweredFrom(n: Net, f: Flight) returns (n': Net, f': Flight)
    requires InWait(n) && f in n.flights
    requires f.kernel == 0 && f.iface == SIDE_A && f.packet == P.AskPacket(SIDE_A, Address.ToString(BOB))
    ensures InWait(n') && f' in n'.flights && n'.kernels[0] == n.kernels[0]
    ensures f'.kernel == 1 && f'.iface == SIDE_B
    ensures f'.packet == P.ReplyPacket(ToyWorld(), SIDE_B, Address.ToString(ALICE))
  {
    InReach(n.kernels);
    var i := FlightAt(n, f);
    var a := Receive(i, 0, []);
    AskIsAnswered(ToyEnv(), n, a);
    HonestStep(n, a);
    StepKeepsRouting(ToyEnv(), n, a);
    OtherKernelStays(n, a, 0);
    n' := Step(ToyEnv(), n, a);
    f' := Flight(Control(n.next), 1, SIDE_B, P.ReplyPacket(ToyWorld(), SIDE_B, Address.ToString(ALICE)));
    assert SameTables(n.kernels[1], n'.kernels[1]);
  }

  /** What the reply's key is sorted among: nothing. */
  lemma OnlyKey(n: Net, p: P.Packet)
    requires InWait(n) && p == P.ReplyPacket(ToyWorld(), SIDE_B, Address.ToString(ALICE))
    ensures SortChoice(ToyWorld(), n.kernels[0], p, 0, [KeyStore.PubKey(KEY_B, P.KEY_LIFETIME)])
  {
    var s := n.kernels[0];
    assert Inv(s);
    WaiterOf(s, 0);
    assert KeyStore.KeysOf(s.store, Address.ToString(BOB)) == [];
    assert P.WithReply(ToyWorld(), P.Learn(s, p, 0), p, 0) == [KeyStore.PubKey(KEY_B, P.KEY_LIFETIME)];
  }

  lemma KeyedFrom(n: Net, f: Flight) returns (n': Net)
    requires InWait(n) && f in n.flights && f.kernel == 1 && f.iface == SIDE_B
    requires f.packet == P.ReplyPacket(ToyWorld(), SIDE_B, Address.ToString(ALICE))
    ensures Honestly(n') && OnCourse(ToyEnv(), n', DataOf(0, 0), 0)
  {
    InReach(n.kernels);
    OnlyKey(n, f.packet);
    var i := FlightAt(n, f);
    var a := Receive(i, 0, [KeyStore.PubKey(KEY_B, P.KEY_LIFETIME)]);
    ReplySetsOut(ToyEnv(), n, a, TheFetch(), f, 0);
    HonestStep(n, a);
    n' := Step(ToyEnv(), n, a);
  }

  /** An honest run leads to a network with a data packet on course: what `CarriedToDestination` starts from. */
  lemma DataOnCourse(data: Cipher.Bytes) returns (n: Net)
    ensures HonestEnv(ToyRealm(), ToyEnv()) && Reached(ToyRealm(), ToyEnv(), n) && KernelsOk(n)
    ensures OnCourse(ToyEnv(), n, DataOf(0, 0), 0)
  {
    ToyIsHonest();
    var n1, f1 := Asked(data);
    var n2, f2 := AnsweredFrom(n1, f1);
    n := KeyedFrom(n2, f2);
  }

  /** One more step, and it is delivered. */
  lemma DataDelivered(data: Cipher.Bytes) returns (n: Net)
    ensures Reached(ToyRealm(), ToyEnv(), n) && KernelsOk(n) && Delivered(n, DataOf(0, 0))
  {
    var n0 := DataOnCourse(data);
    ReachedIsSound(ToyRealm(), ToyEnv(), n0);
    var a := CanBeProcessed(ToyRealm(), ToyEnv(), n0, DataOf(0, 0), 0, 0);
    StepOnCourse(ToyRealm(), ToyEnv(), n0, a, DataOf(0, 0), 0);
    HonestStep(n0, a);
    n := Step(ToyEnv(), n0, a);
  }
}
