/**
 * A send does not wait for ever: each tick of its kernel that comes after the deadline of its wait makes
 * it ask again, and after its third request it gives up. Nothing else in the network prolongs a wait.
 */
module Patience {
  import opened Std
  import opened KernelInvariant
  import opened KernelEffects
  import opened Network
  import Address
  import Cipher
  import KeyStore
  import P = Protocol

  /** The waits of send `id` end before `t`. */
  ghost predicate DueBefore(s: P.State, id: nat, t: int) {
    forall wt :: wt in s.waiters && wt.id == id ==> wt.deadline < t
  }

  /** Send `id` waits on as before, for no longer than before, or waits no more. */
  ghost predicate NotProlonged(s: P.State, s': P.State, id: nat) {
    && id < |s.sends| <= |s'.sends|
    && (s'.sends[id].phase.Waiting? ==> s'.sends[id] == s.sends[id])
    && (forall wt :: wt in s'.waiters && wt.id == id ==> wt in s.waiters)
  }

  lemma OtherResumeProlongsNothing(w: P.World, s: P.State, other: nat, now: int, id: nat)
    requires id < |s.sends| && id != other
    ensures NotProlonged(s, P.ResumeSend(w, s, other, now), id)
  {
  }

  lemma StartProlongsNothing(
      w: P.World, s: P.State, target: string, data: Cipher.Bytes, draw: nat, now: int, id: nat)
    requires Inv(s) && id < |s.sends|
    ensures NotProlonged(s, P.Start(w, s, target, data, draw, now), id)
  {
    match P.SelectRoute(w, s, target)
    case Via(iface) =>
      var s' := s.(sends := s.sends + [P.Send(target, data, draw, Some(iface), 0, P.Waiting)]);
      OtherResumeProlongsNothing(w, s', |s.sends|, now, id);
    case _ =>
  }

  lemma ProcessProlongsNothing(
      w: P.World, s: P.State, p: P.Packet, arrival: P.Iface, now: int, sorted: seq<KeyStore.PubKey>, id: nat)
    requires Inv(s) && SortChoice(w, s, p, now, sorted) && id < |s.sends|
    ensures NotProlonged(s, P.Process(w, s, p, arrival, now, sorted), id)
  {
    var src, s2 := Address.ToString(p.src), Dispatched(w, s, p, arrival, now, sorted);
    DispatchedKeeps(w, s, p, arrival, now, sorted);
    DispatchedGrows(w, s, p, arrival, now, sorted);
    ReleasedSendsTransmit(w, s2, src, now);
    ReleaseLeaves(w, s2, src, now);
  }

  lemma MovedProlongsNothing(env: Env, n: Net, a: Action, id: nat)
    requires KernelsOk(n) && Enabled(env, n, a) && !a.Lose? && !a.Tick?
    requires id < |n.kernels[Actor(env, n, a)].sends|
    ensures NotProlonged(n.kernels[Actor(env, n, a)], Moved(env, n, a), id)
  {
    var s := n.kernels[Actor(env, n, a)];
    assert Inv(s);
    match a {
      case Send(k, target, data, draw, now) => StartProlongsNothing(env.w, s, target, data, draw, now, id);
      case Receive(i, now, sorted) =>
        ProcessProlongsNothing(env.w, s, n.flights[i].packet, Destination(env, n, i).value.iface, now, sorted, id);
      case _ =>
    }
  }

  lemma {:induction false} RenewedOf(s: P.State, ids: seq<nat>, clock: nat -> int)
    ensures forall wt :: wt in Renewed(s, ids, clock) ==> wt.deadline == clock(wt.id) + 8_000_000 && wt.id in ids
    decreases |ids|
  {
    if ids != [] {
      RenewedOf(s, ids[1..], clock);
    }
  }

  /** A waiting send whose waits are all due has its waiter among the expired. */
  lemma DueIsExpired(s: P.State, id: nat, now: int)
    requires Inv(s) && id < |s.sends| && s.sends[id].phase.Waiting? && DueBefore(s, id, now)
    ensures id in P.Ids(P.ExpiredOf(s.waiters, now))
  {
    assert id in P.Ids(s.waiters) + [];
    IdsOfWaiters(s.waiters, id);
    var wt :| wt in s.waiters && wt.id == id;
    IdInIds(P.ExpiredOf(s.waiters, now), wt);
  }

  /** A tick past its deadline costs a waiting send one release; its next wait ends 8 seconds later. */
  lemma TickCosts(w: P.World, s: P.State, now: int, clock: nat -> int, id: nat)
    requires Inv(s) && id < |s.sends| && DueBefore(s, id, now)
    ensures var s' := P.Tick(w, s, now, clock);
            && |s'.sends| == |s.sends|
            && DueBefore(s', id, clock(id) + 8_000_000 + 1)
            && PatienceOf(s'.sends[id]) == if PatienceOf(s.sends[id]) == 0 then 0 else PatienceOf(s.sends[id]) - 1
  {
    ExpiredSendsRetry(w, s, now, clock);
    TickRenews(w, s, now, clock);
    RenewedOf(s, P.Ids(P.ExpiredOf(s.waiters, now)), clock);
    assert SendOk(s, id);
    if s.sends[id].phase.Waiting? {
      DueIsExpired(s, id, now);
    } else if id in P.Ids(P.ExpiredOf(s.waiters, now)) {
      IdsOfWaiters(P.ExpiredOf(s.waiters, now), id);
      var wt :| wt in s.waiters && wt.id == id;
      IdInIds(s.waiters, wt);
      assert id in P.Ids(s.waiters) + [];
    }
  }

  /** A tick, due or not, never makes a send more patient. */
  lemma TickNeverRaises(w: P.World, s: P.State, now: int, clock: nat -> int, id: nat)
    requires Inv(s) && id < |s.sends|
    ensures var s' := P.Tick(w, s, now, clock);
            id < |s'.sends| && PatienceOf(s'.sends[id]) <= PatienceOf(s.sends[id])
  {
    ExpiredSendsRetry(w, s, now, clock);
  }

  /** The action is a tick of kernel `k` past the deadline of the wait that send `id` is in. */
  ghost predicate DueTick(n: Net, a: Action, k: nat, id: nat) {
    a.Tick? && a.k == k && k < |n.kernels| && DueBefore(n.kernels[k], id, a.now)
  }

  lemma MovedCosts(env: Env, n: Net, a: Action, k: nat, id: nat)
    requires KernelsOk(n) && Enabled(env, n, a) && !a.Lose? && k == Actor(env, n, a)
    requires id < |n.kernels[k].sends|
    ensures id < |Moved(env, n, a).sends|
    ensures var p, p' := PatienceOf(n.kernels[k].sends[id]), PatienceOf(Moved(env, n, a).sends[id]);
            if DueTick(n, a, k, id) && p > 0 then p' < p else p' <= p
  {
    assert Inv(n.kernels[k]);
    if DueTick(n, a, k, id) {
      TickCosts(env.w, n.kernels[k], a.now, a.clock, id);
    } else if a.Tick? {
      TickNeverRaises(env.w, n.kernels[k], a.now, a.clock, id);
    } else {
      MovedProlongsNothing(env, n, a, id);
    }
  }

  /** Every due tick costs patience, and no other step restores any. */
  lemma StepCosts(env: Env, n: Net, a: Action, k: nat, id: nat)
    requires KernelsOk(n) && k < |n.kernels| && id < |n.kernels[k].sends|
    ensures var n' := Step(env, n, a);
            && k < |n'.kernels| && id < |n'.kernels[k].sends|
            && var p, p' := PatienceOf(n.kernels[k].sends[id]), PatienceOf(n'.kernels[k].sends[id]);
               if DueTick(n, a, k, id) && p > 0 then p' < p else p' <= p
  {
    if Enabled(env, n, a) && !a.Lose? {
      MovedKeeps(env, n, a);
      if Actor(env, n, a) == k {
        MovedCosts(env, n, a, k, id);
      }
    }
  }

  /** How many ticks of the run come after the deadline of the wait that the send is then in. */
  ghost function DueTicks(env: Env, n: Net, actions: seq<Action>, k: nat, id: nat): nat
    requires KernelsOk(n)
    decreases |actions|
  {
    if actions == [] then 0
    else
      StepKeepsKernels(env, n, actions[0]);
      (if DueTick(n, actions[0], k, id) then 1 else 0) + DueTicks(env, Step(env, n, actions[0]), actions[1..], k, id)
  }

  lemma {:induction false} RunCosts(env: Env, n: Net, actions: seq<Action>, k: nat, id: nat)
    requires KernelsOk(n) && k < |n.kernels| && id < |n.kernels[k].sends|
    ensures var n' := Run(env, n, actions);
            && k < |n'.kernels| && id < |n'.kernels[k].sends|
            && var p, p' := PatienceOf(n.kernels[k].sends[id]), PatienceOf(n'.kernels[k].sends[id]);
               p' == 0 || p' + DueTicks(env, n, actions, k, id) <= p
    decreases |actions|
  {
    if actions != [] {
      StepKeepsKernels(env, n, actions[0]);
      StepCosts(env, n, actions[0], k, id);
      RunCosts(env, Step(env, n, actions[0]), actions[1..], k, id);
    }
  }

  /**
   * However a run goes on, and however often its kernel ticks: once four of the ticks have come after the
   * deadline of the wait the send was then in, it waits no longer.
   */
  lemma FourTicksEndWaiting(env: Env, n: Net, actions: seq<Action>, k: nat, id: nat)
    requires KernelsOk(n) && k < |n.kernels| && id < |n.kernels[k].sends|
    requires DueTicks(env, n, actions, k, id) >= 4
    ensures var n' := Run(env, n, actions);
            && k < |n'.kernels| && id < |n'.kernels[k].sends| && !n'.kernels[k].sends[id].phase.Waiting?
  {
    RunCosts(env, n, actions, k, id);
    RunKeepsKernels(env, n, actions);
    var s := Run(env, n, actions).kernels[k];
    assert Inv(s);
    assert SendOk(s, id);
  }

  // ----- The same by the clock -----

  /** The wait that send `id` is in, if any, ends at `d`. */
  ghost predicate DueAt(s: P.State, id: nat, d: int) {
    forall wt :: wt in s.waiters && wt.id == id ==> wt.deadline == d
  }

  predicate Passes(a: Action, k: nat, d: int) {
    a.Tick? && a.k == k && d < a.now
  }

  /** The deadline after the action: a tick that has passed it starts the next wait, others leave it alone. */
  function NextDeadline(a: Action, k: nat, id: nat, d: int): int {
    if Passes(a, k, d) then a.clock(id) + 8_000_000 else d
  }

  lemma TickMovesDeadline(w: P.World, s: P.State, now: int, clock: nat -> int, id: nat, d: int)
    requires Inv(s) && id < |s.sends| && DueAt(s, id, d)
    ensures DueAt(P.Tick(w, s, now, clock), id, if d < now then clock(id) + 8_000_000 else d)
  {
    var expired := P.ExpiredOf(s.waiters, now);
    TickRenews(w, s, now, clock);
    RenewedOf(s, P.Ids(expired), clock);
    if id in P.Ids(expired) {
      IdsOfWaiters(expired, id);
    }
  }

  lemma StepMovesDeadline(env: Env, n: Net, a: Action, k: nat, id: nat, d: int)
    requires KernelsOk(n) && k < |n.kernels| && id < |n.kernels[k].sends| && DueAt(n.kernels[k], id, d)
    ensures var n' := Step(env, n, a);
            k < |n'.kernels| && id < |n'.kernels[k].sends| && DueAt(n'.kernels[k], id, NextDeadline(a, k, id, d))
  {
    if Enabled(env, n, a) && !a.Lose? {
      MovedKeeps(env, n, a);
      if Actor(env, n, a) == k {
        MovedMovesDeadline(env, n, a, k, id, d);
      }
    }
  }

  lemma MovedMovesDeadline(env: Env, n: Net, a: Action, k: nat, id: nat, d: int)
    requires KernelsOk(n) && Enabled(env, n, a) && !a.Lose? && k == Actor(env, n, a)
    requires id < |n.kernels[k].sends| && DueAt(n.kernels[k], id, d)
    ensures id < |Moved(env, n, a).sends| && DueAt(Moved(env, n, a), id, NextDeadline(a, k, id, d))
  {
    assert Inv(n.kernels[k]);
    if a.Tick? {
      TickMovesDeadline(env.w, n.kernels[k], a.now, a.clock, id, d);
      TickNeverRaises(env.w, n.kernels[k], a.now, a.clock, id);
    } else {
      MovedProlongsNothing(env, n, a, id);
    }
  }

  /** How many deadlines the ticks of kernel `k` pass, read off the schedule alone. */
  function DeadlinesPassed(actions: seq<Action>, k: nat, id: nat, d: int): nat
    decreases |actions|
  {
    if actions == [] then 0
    else
      (if Passes(actions[0], k, d) then 1 else 0)
      + DeadlinesPassed(actions[1..], k, id, NextDeadline(actions[0], k, id, d))
  }

  lemma {:induction false} PassedAreDue(env: Env, n: Net, actions: seq<Action>, k: nat, id: nat, d: int)
    requires KernelsOk(n) && k < |n.kernels| && id < |n.kernels[k].sends| && DueAt(n.kernels[k], id, d)
    ensures DeadlinesPassed(actions, k, id, d) <= DueTicks(env, n, actions, k, id)
    decreases |actions|
  {
    if actions != [] {
      StepKeepsKernels(env, n, actions[0]);
      StepMovesDeadline(env, n, actions[0], k, id, d);
      PassedAreDue(env, Step(env, n, actions[0]), actions[1..], k, id, NextDeadline(actions[0], k, id, d));
    }
  }

  /**
   * By the clock: ticks may come as often as they like. The first one past the deadline ends the wait, the
   * next wait lasts 8 seconds from the time then read, and behind the fourth such deadline there is none.
   */
  lemma FourDeadlinesEndWaiting(env: Env, n: Net, actions: seq<Action>, k: nat, id: nat, d: int)
    requires KernelsOk(n) && k < |n.kernels| && id < |n.kernels[k].sends| && DueAt(n.kernels[k], id, d)
    requires DeadlinesPassed(actions, k, id, d) >= 4
    ensures var n' := Run(env, n, actions);
            && k < |n'.kernels| && id < |n'.kernels[k].sends| && !n'.kernels[k].sends[id].phase.Waiting?
  {
    PassedAreDue(env, n, actions, k, id, d);
    FourTicksEndWaiting(env, n, actions, k, id);
  }
}
