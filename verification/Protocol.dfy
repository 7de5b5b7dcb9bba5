/**
 * The steps of the routing kernel (libavproto/src/avkernel.cpp) as functions of its state. A step is
 * the stretch of a coroutine between two suspensions. `Kernel` runs these steps on an object.
 */
module Protocol {
  import opened Std
  import opened Address
  import opened Cipher
  import opened KeyStore
  import RouteTable

  /**
   * What the kernel calls but does not define: the RSA operations of a modulus, the certificate of
   * a key and the key in a certificate, and regular-expression matching.
   */
  datatype World = World(
    rsa: Modulus -> Rsa, certOf: Modulus -> Bytes, certKey: Bytes -> Modulus, matches: RouteTable.Matcher)

  /** An interface: its stable name, its address, and the modulus of its key pair. */
  datatype Iface = Iface(name: string, addr: Address, key: Modulus)

  datatype Kind = PkAsk | PkReply | Avim | OtherKind

  /** `proto::avPacket`; a public key or payload may be absent. */
  datatype Packet = Packet(
    src: Address, dest: Address, kind: Kind, ttl: int, publickey: Option<Modulus>, payload: Option<Bytes>)

  /** Why a packet was pushed to a write queue; `id` numbers the sends of this kernel. */
  datatype Tag = Forwarded | Reply | Ask(id: nat) | Data(id: nat)

  datatype Push = Push(iface: Iface, packet: Packet, tag: Tag)

  datatype Code = Ok | Unreachable

  /** Where a send stands: in `async_wait_processed_packet`, in the write, or past its handler. */
  datatype Phase = Waiting | Writing | Done(code: Code)

  /** One `async_sendto_op` coroutine; no interface means that no route was found. */
  datatype Send = Send(target: string, data: Bytes, draw: nat, iface: Option<Iface>, asks: nat, phase: Phase)

  /** An entry of the post-processing list. */
  datatype Waiter = Waiter(deadline: int, target: string, id: nat)

  /** A send's completion handler has been called. */
  datatype Completion = Completion(id: nat, code: Code)

  /**
   * `outbox` and `completions` are the pushes to the write queues and the handler calls so far, in
   * order; `called` holds the positions in the outbox of those packets whose completion the writer has
   * called; `faulted` records a thrown exception (a failed decryption, or `map::at` on no interface).
   */
  datatype State = State(
    ifs: map<string, Iface>, routes: seq<RouteTable.Route>, store: Store, recv: seq<(string, Bytes)>,
    waiters: seq<Waiter>, sends: seq<Send>, outbox: seq<Push>, called: set<nat>, completions: seq<Completion>,
    faulted: bool)

  function Initial(): State {
    State(map[], [], map[], [], [], [], [], {}, [], false)
  }

  /** Times are in microseconds. */
  const WAIT_FOR_KEY: int := 8_000_000
  const KEY_LIFETIME: int := 500 * 3600 * 1_000_000
  const INITIAL_TTL: int := 64
  const MAX_ASKS: nat := 3

  // ----- Lookups -----

  /** `is_to_me`: user and domain are compared, the resource is not. */
  predicate IsToMe(s: State, dest: Address) {
    exists name :: name in s.ifs && s.ifs[name].addr.username == dest.username && s.ifs[name].addr.domain == dest.domain
  }

  /** `select_route`; `Missing` is the exception of `m_avifs.at`. */
  datatype Selected = NoRoute | Via(iface: Iface) | Missing

  function SelectRoute(w: World, s: State, address: string): Selected {
    match RouteTable.Select(w.matches, s.routes, address)
    case None => NoRoute
    case Some(r) => if r.ifname in s.ifs then Via(s.ifs[r.ifname]) else Missing
  }

  // ----- Packets the kernel makes -----

  function AskPacket(iface: Iface, target: string): Packet {
    Packet(iface.addr, FromString(target), PkAsk, INITIAL_TTL, None, None)
  }

  function ReplyPacket(w: World, iface: Iface, target: string): Packet {
    Packet(iface.addr, FromString(target), PkReply, INITIAL_TTL, None, Some(w.certOf(iface.key)))
  }

  /** Both keys must exceed the padding, or the encryption loops do not advance. */
  function SealWith(w: World, sender: Modulus, target: Modulus, draw: nat, data: Bytes): Bytes {
    if w.rsa(sender).size > PADDING && w.rsa(target).size > PADDING
    then Seal(w.rsa(sender), w.rsa(target), draw, data) else []
  }

  function DataPacket(w: World, iface: Iface, target: string, key: Modulus, draw: nat, data: Bytes): Packet {
    Packet(iface.addr, FromString(target), Avim, INITIAL_TTL, Some(iface.key),
           Some(SealWith(w, iface.key, key, draw, data)))
  }

  // ----- Sending -----

  /** The loop body of `async_sendto_op`: ask for the key and wait for it. */
  function AskForKey(s: State, id: nat, now: int): State
    requires id < |s.sends| && s.sends[id].iface.Some?
  {
    var send := s.sends[id];
    var iface := send.iface.value;
    s.(outbox := s.outbox + [Push(iface, AskPacket(iface, send.target), Ask(id))],
       waiters := s.waiters + [Waiter(now + WAIT_FOR_KEY, send.target, id)],
       sends := s.sends[id := send.(asks := send.asks + 1, phase := Waiting)])
  }

  /** The end of `async_sendto_op`: build the packet and wait until it is written. */
  function Transmit(w: World, s: State, id: nat, key: Modulus): State
    requires id < |s.sends| && s.sends[id].iface.Some?
  {
    var send := s.sends[id];
    var iface := send.iface.value;
    s.(outbox := s.outbox + [Push(iface, DataPacket(w, iface, send.target, key, send.draw, send.data), Data(id))],
       sends := s.sends[id := send.(phase := Writing)])
  }

  function Finish(s: State, id: nat, code: Code): State
    requires id < |s.sends|
  {
    s.(completions := s.completions + [Completion(id, code)], sends := s.sends[id := s.sends[id].(phase := Done(code))])
  }

  /** From a test of `target_pubkey` to the next suspension or the handler call. */
  function ResumeSend(w: World, s: State, id: nat, now: int): State {
    if id >= |s.sends| || s.sends[id].iface.None? then s
    else
      match Find(s.store, s.sends[id].target)
      case Some(key) => Transmit(w, s, id, key)
      case None => if s.sends[id].asks < MAX_ASKS then AskForKey(s, id, now) else Finish(s, id, Unreachable)
  }

  /** `async_sendto_op` up to its first suspension. */
  function Start(w: World, s: State, target: string, data: Bytes, draw: nat, now: int): State {
    var id := |s.sends|;
    match SelectRoute(w, s, target)
    case Via(iface) =>
      ResumeSend(w, s.(sends := s.sends + [Send(target, data, draw, Some(iface), 0, Waiting)]), id, now)
    case NoRoute =>
      s.(sends := s.sends + [Send(target, data, draw, None, 0, Done(Unreachable))],
         completions := s.completions + [Completion(id, Unreachable)])
    case Missing => s.(faulted := true)
  }

  /**
   * The writer has written the packet at position `i` of the outbox and calls its completion, which
   * does something for data packets only; its error code is that of the pop. `Link` shows that a
   * writer does this once per packet, in the order of the pushes.
   */
  function WriteCompleted(s: State, i: nat): State {
    if i >= |s.outbox| || i in s.called then s
    else
      var s' := s.(called := s.called + {i});
      match s.outbox[i].tag
      case Data(id) => if id < |s.sends| then Finish(s', id, Ok) else s'
      case _ => s'
  }

  /** Several sends resumed one after another, each reading the clock for itself. */
  function ResumeAll(w: World, s: State, ids: seq<nat>, clock: nat -> int): State
    decreases |ids|
  {
    if ids == [] then s else ResumeAll(w, ResumeSend(w, s, ids[0], clock(ids[0])), ids[1..], clock)
  }

  function Ids(waiters: seq<Waiter>): (ids: seq<nat>)
    ensures |ids| == |waiters|
  {
    if waiters == [] then [] else [waiters[0].id] + Ids(waiters[1..])
  }

  // ----- Receiving -----

  function AddKey(store: Store, address: string, sorted: seq<PubKey>): Store {
    store[address := sorted]
  }

  /** The first sender of a public key under a new name is trusted. */
  function Learn(s: State, p: Packet, now: int): State {
    var a := ToString(p.src);
    if p.publickey.Some? && Find(s.store, a).None?
    then s.(store := AddKey(s.store, a, [PubKey(p.publickey.value, now + KEY_LIFETIME)]))
    else s
  }

  /** The keys recorded for the sender of a pkreply, with the new one behind them, before sorting. */
  function WithReply(w: World, s: State, p: Packet, now: int): seq<PubKey> {
    var crt := if p.payload.Some? then p.payload.value else [];
    KeysOf(s.store, ToString(p.src)) + [PubKey(w.certKey(crt), now + KEY_LIFETIME)]
  }

  /** `process_recived_packet_to_me`; `sorted` is the order in which std::sort left the keys. */
  function ToMe(w: World, s: State, p: Packet, arrival: Iface, sorted: seq<PubKey>): State {
    var a := ToString(p.src);
    match p.kind
    case PkAsk => s.(outbox := s.outbox + [Push(arrival, ReplyPacket(w, arrival, a), Reply)])
    case PkReply => s.(store := AddKey(s.store, a, sorted))
    case _ =>
      var sender := if p.publickey.Some? then p.publickey.value else [];
      var data := if p.payload.Some? then Open(w.rsa(sender), w.rsa(arrival.key), p.payload.value) else Some([]);
      match data
      case None => s.(faulted := true)
      case Some(d) => if p.kind.Avim? then s.(recv := s.recv + [(a, d)]) else s
  }

  /** The packet is for this kernel, dies, or is passed on. */
  function Dispatch(w: World, s: State, p: Packet, arrival: Iface, sorted: seq<PubKey>): State {
    if IsToMe(s, p.dest) then ToMe(w, s, p, arrival, sorted)
    else if p.ttl <= 1 then s
    else
      match SelectRoute(w, s, ToString(p.dest))
      case NoRoute => s
      case Via(iface) => s.(outbox := s.outbox + [Push(iface, p.(ttl := p.ttl - 1), Forwarded)])
      case Missing => s.(faulted := true)
  }

  /** The predicate `async_sendto_op` registers: the packet's sender is the target, and has a key. */
  predicate Released(store: Store, src: string, wt: Waiter) {
    src == wt.target && Find(store, wt.target).Some?
  }

  /** The waiters the post-processing releases, and those it keeps, in list order. */
  function ReleasedBy(store: Store, src: string, waiters: seq<Waiter>): seq<Waiter> {
    Filter(waiters, (wt: Waiter) => Released(store, src, wt))
  }

  function KeptBy(store: Store, src: string, waiters: seq<Waiter>): seq<Waiter> {
    Filter(waiters, (wt: Waiter) => !Released(store, src, wt))
  }

  /** The scope-exit block of `process_recived_packet`. */
  function PostProcess(w: World, s: State, src: string, now: int): State {
    var s' := s.(waiters := KeptBy(s.store, src, s.waiters));
    ResumeAll(w, s', Ids(ReleasedBy(s.store, src, s.waiters)), (_: nat) => now)
  }

  /** `process_recived_packet` */
  function Process(w: World, s: State, p: Packet, arrival: Iface, now: int, sorted: seq<PubKey>): State {
    PostProcess(w, Dispatch(w, Learn(s, p, now), p, arrival, sorted), ToString(p.src), now)
  }

  // ----- Timers and administration -----

  function ExpiredOf(waiters: seq<Waiter>, now: int): seq<Waiter> {
    Filter(waiters, (wt: Waiter) => wt.deadline < now)
  }

  function Unexpired(waiters: seq<Waiter>, now: int): seq<Waiter> {
    Filter(waiters, (wt: Waiter) => wt.deadline >= now)
  }

  /** `timer1_tick` */
  function Tick(w: World, s: State, now: int, clock: nat -> int): State {
    ResumeAll(w, s.(waiters := Unexpired(s.waiters, now)), Ids(ExpiredOf(s.waiters, now)), clock)
  }

  /** `add_interface`: an interface of that name stays. */
  function AddInterface(s: State, iface: Iface): State {
    if iface.name in s.ifs then s else s.(ifs := s.ifs[iface.name := iface])
  }

  /** `remove_interface` */
  function RemoveInterface(s: State, name: string): State {
    s.(routes := RouteTable.Without(s.routes, name), ifs := s.ifs - {name})
  }
}
