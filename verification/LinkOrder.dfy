/**
 * `Link` follows one interface byte by byte; `Network` lets packets in flight be processed, and the
 * completions of packets be called, in any order. The two agree: a run of the network that does either
 * oldest first does it for the packets that the peer of that link reads, and for those whose completion
 * its writer calls, in the same order.
 */
module LinkOrder {
  import opened Std
  import opened KernelInvariant
  import opened KernelEffects
  import opened Network
  import Framing
  import L = Link
  import P = Protocol

  /** The packets in flight on the link of kernel `k`'s interface `name`, oldest first. */
  function OnLink(flights: seq<Flight>, k: nat, name: string): seq<P.Packet> {
    if flights == [] then []
    else if IsOn(flights[0], k, name) then [flights[0].packet] + OnLink(flights[1..], k, name)
    else OnLink(flights[1..], k, name)
  }

  predicate IsOn(f: Flight, k: nat, name: string) {
    f.kernel == k && f.iface.name == name
  }

  /** The packets among `pushes` that went to the write queue of interface `name`, in push order. */
  function PushedTo(pushes: seq<P.Push>, name: string): seq<P.Packet> {
    if pushes == [] then []
    else if pushes[0].iface.name == name then [pushes[0].packet] + PushedTo(pushes[1..], name)
    else PushedTo(pushes[1..], name)
  }

  lemma {:induction false} OnLinkAppend(a: seq<Flight>, b: seq<Flight>, k: nat, name: string)
    ensures OnLink(a + b, k, name) == OnLink(a, k, name) + OnLink(b, k, name)
    decreases |a|
  {
    if a == [] {
      assert a + b == b;
    } else {
      assert (a + b)[1..] == a[1..] + b;
      OnLinkAppend(a[1..], b, k, name);
    }
  }

  lemma {:induction false} PushedToAppend(a: seq<P.Push>, b: seq<P.Push>, name: string)
    ensures PushedTo(a + b, name) == PushedTo(a, name) + PushedTo(b, name)
    decreases |a|
  {
    if a == [] {
      assert a + b == b;
    } else {
      assert (a + b)[1..] == a[1..] + b;
      PushedToAppend(a[1..], b, name);
    }
  }

  /** What a kernel's step puts on a link is what it pushes to that link's write queue, in push order. */
  lemma {:induction false} LaunchOnLink(
      j: nat, pushes: seq<P.Push>, via: Option<Id>, m: nat, k: nat, name: string)
    ensures OnLink(Launch(j, pushes, via, m), k, name) == if j == k then PushedTo(pushes, name) else []
    decreases |pushes|
  {
    if pushes != [] {
      LaunchOnLink(j, pushes[1..], via, m + 1, k, name);
      assert Launch(j, pushes, via, m)[1..] == Launch(j, pushes[1..], via, m + 1);
    }
  }

  /** Two things happen to a packet pushed to an interface: it arrives, and its completion is called. */
  datatype Side = Arrivals | Completions

  /** The packets pushed to `name`, from position `from` of the outbox on, whose completion is outstanding. */
  function Uncalled(outbox: seq<P.Push>, called: set<nat>, name: string, from: nat): seq<P.Packet>
    decreases |outbox| - from
  {
    if from >= |outbox| then []
    else if outbox[from].iface.name == name && from !in called
    then [outbox[from].packet] + Uncalled(outbox, called, name, from + 1)
    else Uncalled(outbox, called, name, from + 1)
  }

  function Outstanding(n: Net, k: nat, name: string, side: Side): seq<P.Packet>
    requires k < |n.kernels|
  {
    match side
    case Arrivals => OnLink(n.flights, k, name)
    case Completions => Uncalled(n.kernels[k].outbox, n.kernels[k].called, name, 0)
  }

  /** The packet that an action takes off the link, or whose completion it calls. */
  ghost function TakenBy(env: Env, n: Net, a: Action, k: nat, name: string, side: Side): seq<P.Packet> {
    match side
    case Arrivals =>
      if (a.Receive? || a.Lose?) && Enabled(env, n, a) && IsOn(n.flights[a.i], k, name)
      then [n.flights[a.i].packet] else []
    case Completions =>
      if a.Written? && a.k == k && Enabled(env, n, a) && n.kernels[k].outbox[a.i].iface.name == name
      then [n.kernels[k].outbox[a.i].packet] else []
  }

  /** If it is such an action, then it takes the oldest. */
  predicate TakesOldest(n: Net, a: Action, k: nat, name: string, side: Side)
    requires k < |n.kernels|
  {
    var outbox, called := n.kernels[k].outbox, n.kernels[k].called;
    match side
    case Arrivals =>
      (a.Receive? || a.Lose?) && a.i < |n.flights| && IsOn(n.flights[a.i], k, name) ==>
        OnLink(n.flights[..a.i], k, name) == []
    case Completions =>
      a.Written? && a.k == k && a.i < |outbox| && outbox[a.i].iface.name == name ==>
        forall j :: 0 <= j < a.i && outbox[j].iface.name == name ==> j in called
  }

  lemma OnLinkRemove(flights: seq<Flight>, i: nat, k: nat, name: string)
    requires i < |flights|
    requires IsOn(flights[i], k, name) ==> OnLink(flights[..i], k, name) == []
    ensures OnLink(flights, k, name) ==
            (if IsOn(flights[i], k, name) then [flights[i].packet] else []) + OnLink(RemoveAt(flights, i), k, name)
  {
    var front, f, back := flights[..i], flights[i], flights[i + 1..];
    assert flights == front + ([f] + back);
    OnLinkAppend(front, [f] + back, k, name);
    OnLinkAppend(front, back, k, name);
    assert ([f] + back)[1..] == back;
  }

  lemma AbsorbOnLink(n: Net, j: nat, s: P.State, via: Option<Id>, k: nat, name: string)
    requires j < |n.kernels| && k < |n.kernels|
    requires n.kernels[j].outbox <= s.outbox && n.kernels[j].recv <= s.recv
    ensures var n' := Absorb(n, j, s, via);
            var was, now := n.kernels[k].outbox, n'.kernels[k].outbox;
            was <= now && OnLink(n'.flights, k, name) == OnLink(n.flights, k, name) + PushedTo(now[|was|..], name)
  {
    var pushes := s.outbox[|n.kernels[j].outbox|..];
    LaunchOnLink(j, pushes, via, n.next, k, name);
    OnLinkAppend(n.flights, Launch(j, pushes, via, n.next), k, name);
  }

  /** What has been pushed to the link between two states of the network. */
  ghost function PushedBetween(n: Net, n': Net, k: nat, name: string): seq<P.Packet>
    requires k < |n.kernels| && k < |n'.kernels| && n.kernels[k].outbox <= n'.kernels[k].outbox
  {
    PushedTo(n'.kernels[k].outbox[|n.kernels[k].outbox|..], name)
  }

  lemma BeforeOnLink(env: Env, n: Net, a: Action, k: nat, name: string)
    requires k < |n.kernels| && Enabled(env, n, a) && TakesOldest(n, a, k, name, Arrivals)
    ensures TakenBy(env, n, a, k, name, Arrivals) + OnLink(Before(env, n, a).flights, k, name) ==
            OnLink(n.flights, k, name)
  {
    if a.Receive? || a.Lose? {
      OnLinkRemove(n.flights, a.i, k, name);
    }
  }

  lemma AfterOnLink(env: Env, n: Net, a: Action, k: nat, name: string)
    requires KernelsOk(n) && k < |n.kernels| && Enabled(env, n, a)
    ensures var n', mid := Step(env, n, a), Before(env, n, a);
            && k < |n'.kernels| && n.kernels[k].outbox <= n'.kernels[k].outbox
            && OnLink(n'.flights, k, name) == OnLink(mid.flights, k, name) + PushedBetween(n, n', k, name)
  {
    var mid := Before(env, n, a);
    if a.Lose? {
      assert n.kernels[k].outbox[|n.kernels[k].outbox|..] == [];
    } else {
      MovedKeeps(env, n, a);
      AbsorbOnLink(mid, Actor(env, n, a), Moved(env, n, a), Via(n, a), k, name);
    }
  }

  lemma Regroup(taken: seq<P.Packet>, mid: seq<P.Packet>, before: seq<P.Packet>, pushed: seq<P.Packet>)
    requires taken + mid == before
    ensures taken + (mid + pushed) == before + pushed
  {
    assert taken + (mid + pushed) == taken + mid + pushed;
  }

  /** A step takes the oldest packet off the link, or none, and puts the new ones behind the others. */
  lemma StepOnLink(env: Env, n: Net, a: Action, k: nat, name: string)
    requires KernelsOk(n) && k < |n.kernels| && TakesOldest(n, a, k, name, Arrivals)
    ensures var n' := Step(env, n, a);
            && k < |n'.kernels| && n.kernels[k].outbox <= n'.kernels[k].outbox
            && TakenBy(env, n, a, k, name, Arrivals) + OnLink(n'.flights, k, name) ==
               OnLink(n.flights, k, name) + PushedBetween(n, n', k, name)
  {
    if !Enabled(env, n, a) {
      assert n.kernels[k].outbox[|n.kernels[k].outbox|..] == [];
    } else {
      BeforeOnLink(env, n, a, k, name);
      AfterOnLink(env, n, a, k, name);
      var n', mid := Step(env, n, a), Before(env, n, a);
      Regroup(TakenBy(env, n, a, k, name, Arrivals), OnLink(mid.flights, k, name), OnLink(n.flights, k, name),
              PushedBetween(n, n', k, name));
    }
  }

  lemma {:induction false} UncalledPrefix(
      outbox: seq<P.Push>, more: seq<P.Push>, called: set<nat>, name: string, from: nat)
    requires from <= |outbox| && forall i :: i in called ==> i < |outbox|
    ensures Uncalled(outbox + more, called, name, from) ==
            Uncalled(outbox, called, name, from) + PushedTo(more, name)
    decreases |outbox| - from
  {
    if from == |outbox| {
      UncalledNew(outbox, more, called, name);
    } else {
      UncalledPrefix(outbox, more, called, name, from + 1);
    }
  }

  /** Nothing pushed later has had its completion called. */
  lemma {:induction false} UncalledNew(outbox: seq<P.Push>, more: seq<P.Push>, called: set<nat>, name: string)
    requires forall i :: i in called ==> i < |outbox|
    ensures Uncalled(outbox + more, called, name, |outbox|) == PushedTo(more, name)
    decreases |more|
  {
    if more != [] {
      assert outbox + more == (outbox + [more[0]]) + more[1..];
      UncalledNew(outbox + [more[0]], more[1..], called, name);
    }
  }

  lemma {:induction false} UncalledLess(outbox: seq<P.Push>, called: set<nat>, name: string, i: nat, from: nat)
    requires i < |outbox| && i !in called && from <= |outbox|
    requires outbox[i].iface.name == name ==>
               forall j :: from <= j < i && outbox[j].iface.name == name ==> j in called
    ensures Uncalled(outbox, called, name, from) ==
            (if from <= i && outbox[i].iface.name == name then [outbox[i].packet] else [])
            + Uncalled(outbox, called + {i}, name, from)
    decreases |outbox| - from
  {
    if from < |outbox| {
      UncalledLess(outbox, called, name, i, from + 1);
    }
  }

  lemma MovedCalls(env: Env, n: Net, a: Action)
    requires Enabled(env, n, a) && !a.Lose?
    ensures var s, s' := n.kernels[Actor(env, n, a)], Moved(env, n, a);
            if a.Written? then s'.outbox == s.outbox && s'.called == s.called + {a.i} else s'.called == s.called
  {
    var s := n.kernels[Actor(env, n, a)];
    match a {
      case Send(k, target, data, draw, now) => StartKeepsOutside(env.w, s, target, data, draw, now);
      case Receive(i, now, sorted) =>
        ProcessKeepsOutside(env.w, s, n.flights[i].packet, Destination(env, n, i).value.iface, now, sorted);
      case Tick(k, now, clock) => TickKeepsOutside(env.w, s, now, clock);
      case _ =>
    }
  }

  lemma AbsorbKernel(n: Net, j: nat, s: P.State, via: Option<Id>, k: nat)
    requires j < |n.kernels| && k < |n.kernels|
    requires n.kernels[j].outbox <= s.outbox && n.kernels[j].recv <= s.recv
    ensures |Absorb(n, j, s, via).kernels| == |n.kernels|
    ensures Absorb(n, j, s, via).kernels[k] == if k == j then s else n.kernels[k]
  {
  }

  /** What happens to the completions at kernel `k` in one step. */
  lemma StepCalls(env: Env, n: Net, a: Action, k: nat)
    requires KernelsOk(n) && k < |n.kernels|
    ensures var n' := Step(env, n, a);
            && k < |n'.kernels| && n.kernels[k].outbox <= n'.kernels[k].outbox
            && if a.Written? && a.k == k && Enabled(env, n, a)
               then n'.kernels[k].outbox == n.kernels[k].outbox && n'.kernels[k].called == n.kernels[k].called + {a.i}
               else n'.kernels[k].called == n.kernels[k].called
  {
    if Enabled(env, n, a) && !a.Lose? {
      MovedKeeps(env, n, a);
      MovedCalls(env, n, a);
      AbsorbKernel(Before(env, n, a), Actor(env, n, a), Moved(env, n, a), Via(n, a), k);
    }
  }

  lemma CalledInside(n: Net, k: nat)
    requires KernelsOk(n) && k < |n.kernels|
    ensures forall i :: i in n.kernels[k].called ==> i < |n.kernels[k].outbox|
  {
    assert Inv(n.kernels[k]);
    assert CalledOk(n.kernels[k]);
  }

  /** One completion called: the oldest of its link, or one of another link. */
  lemma CallMoves(s: P.State, s': P.State, i: nat, name: string, taken: seq<P.Packet>)
    requires i < |s.outbox| && i !in s.called && s'.outbox == s.outbox && s'.called == s.called + {i}
    requires taken == if s.outbox[i].iface.name == name then [s.outbox[i].packet] else []
    requires s.outbox[i].iface.name == name ==>
               forall j :: 0 <= j < i && s.outbox[j].iface.name == name ==> j in s.called
    ensures taken + Uncalled(s'.outbox, s'.called, name, 0) ==
            Uncalled(s.outbox, s.called, name, 0) + PushedTo(s'.outbox[|s.outbox|..], name)
  {
    UncalledLess(s.outbox, s.called, name, i, 0);
    assert s'.outbox[|s.outbox|..] == [];
  }

  /** No completion called: what is pushed is outstanding behind the others. */
  lemma PushesMove(s: P.State, s': P.State, name: string)
    requires s.outbox <= s'.outbox && s'.called == s.called && forall i :: i in s.called ==> i < |s.outbox|
    ensures Uncalled(s'.outbox, s'.called, name, 0) ==
            Uncalled(s.outbox, s.called, name, 0) + PushedTo(s'.outbox[|s.outbox|..], name)
  {
    assert s'.outbox == s.outbox + s'.outbox[|s.outbox|..];
    UncalledPrefix(s.outbox, s'.outbox[|s.outbox|..], s.called, name, 0);
  }

  /** A step calls the oldest outstanding completion of the link, or none, and adds the new ones behind. */
  lemma StepOnCalls(env: Env, n: Net, a: Action, k: nat, name: string)
    requires KernelsOk(n) && k < |n.kernels| && TakesOldest(n, a, k, name, Completions)
    ensures var n' := Step(env, n, a);
            && k < |n'.kernels| && n.kernels[k].outbox <= n'.kernels[k].outbox
            && TakenBy(env, n, a, k, name, Completions) + Outstanding(n', k, name, Completions) ==
               Outstanding(n, k, name, Completions) + PushedBetween(n, n', k, name)
  {
    var s, s' := n.kernels[k], Step(env, n, a).kernels[k];
    StepCalls(env, n, a, k);
    if a.Written? && a.k == k && Enabled(env, n, a) {
      CallMoves(s, s', a.i, name, TakenBy(env, n, a, k, name, Completions));
    } else {
      CalledInside(n, k);
      PushesMove(s, s', name);
    }
  }

  lemma StepOutstanding(env: Env, n: Net, a: Action, k: nat, name: string, side: Side)
    requires KernelsOk(n) && k < |n.kernels| && TakesOldest(n, a, k, name, side)
    ensures var n' := Step(env, n, a);
            && k < |n'.kernels| && n.kernels[k].outbox <= n'.kernels[k].outbox
            && TakenBy(env, n, a, k, name, side) + Outstanding(n', k, name, side) ==
               Outstanding(n, k, name, side) + PushedBetween(n, n', k, name)
  {
    match side
    case Arrivals => StepOnLink(env, n, a, k, name);
    case Completions => StepOnCalls(env, n, a, k, name);
  }

  /** All packets that have gone to the link so far: `seen` are taken, the others outstanding. */
  ghost predicate Accounts(n: Net, k: nat, name: string, side: Side, seen: seq<P.Packet>) {
    k < |n.kernels| && seen + Outstanding(n, k, name, side) == PushedTo(n.kernels[k].outbox, name)
  }

  lemma AccountsMove(n: Net, n': Net, k: nat, name: string, side: Side, seen: seq<P.Packet>, taken: seq<P.Packet>)
    requires Accounts(n, k, name, side, seen) && k < |n'.kernels| && n.kernels[k].outbox <= n'.kernels[k].outbox
    requires taken + Outstanding(n', k, name, side) == Outstanding(n, k, name, side) + PushedBetween(n, n', k, name)
    ensures Accounts(n', k, name, side, seen + taken)
  {
    var was, now := n.kernels[k].outbox, n'.kernels[k].outbox;
    assert now == was + now[|was|..];
    PushedToAppend(was, now[|was|..], name);
    assert seen + taken + Outstanding(n', k, name, side) == seen + (taken + Outstanding(n', k, name, side));
    Regroup(seen, Outstanding(n, k, name, side), PushedTo(was, name), PushedBetween(n, n', k, name));
  }

  lemma StepAccounts(env: Env, n: Net, a: Action, k: nat, name: string, side: Side, seen: seq<P.Packet>)
    requires KernelsOk(n) && Accounts(n, k, name, side, seen) && TakesOldest(n, a, k, name, side)
    ensures Accounts(Step(env, n, a), k, name, side, seen + TakenBy(env, n, a, k, name, side))
  {
    var n' := Step(env, n, a);
    StepOutstanding(env, n, a, k, name, side);
    AccountsMove(n, n', k, name, side, seen, TakenBy(env, n, a, k, name, side));
  }

  ghost predicate RunTakesOldest(env: Env, n: Net, actions: seq<Action>, k: nat, name: string, side: Side)
    requires KernelsOk(n) && k < |n.kernels|
    decreases |actions|
  {
    actions == [] || (
      StepKeepsKernels(env, n, actions[0]);
      && TakesOldest(n, actions[0], k, name, side)
      && RunTakesOldest(env, Step(env, n, actions[0]), actions[1..], k, name, side))
  }

  /** The packets that a run takes off the link, or whose completions it calls, in order. */
  ghost function TakenInRun(env: Env, n: Net, actions: seq<Action>, k: nat, name: string, side: Side): seq<P.Packet>
    requires KernelsOk(n)
    decreases |actions|
  {
    if actions == [] then []
    else
      StepKeepsKernels(env, n, actions[0]);
      var rest := TakenInRun(env, Step(env, n, actions[0]), actions[1..], k, name, side);
      TakenBy(env, n, actions[0], k, name, side) + rest
  }

  lemma RunFirst(env: Env, n: Net, actions: seq<Action>, k: nat, name: string, side: Side)
    requires KernelsOk(n) && k < |n.kernels| && actions != []
    ensures var n', rest := Step(env, n, actions[0]), actions[1..];
            && KernelsOk(n') && k < |n'.kernels| && Run(env, n, actions) == Run(env, n', rest)
            && (RunTakesOldest(env, n, actions, k, name, side) <==>
                TakesOldest(n, actions[0], k, name, side) && RunTakesOldest(env, n', rest, k, name, side))
            && TakenInRun(env, n, actions, k, name, side) ==
               TakenBy(env, n, actions[0], k, name, side) + TakenInRun(env, n', rest, k, name, side)
  {
    StepKeepsKernels(env, n, actions[0]);
  }

  lemma Associate(a: seq<P.Packet>, b: seq<P.Packet>, c: seq<P.Packet>)
    ensures a + (b + c) == a + b + c
  {
  }

  lemma {:induction false} RunAccounts(
      env: Env, n: Net, actions: seq<Action>, k: nat, name: string, side: Side, seen: seq<P.Packet>)
    requires KernelsOk(n) && Accounts(n, k, name, side, seen) && RunTakesOldest(env, n, actions, k, name, side)
    ensures Accounts(Run(env, n, actions), k, name, side, seen + TakenInRun(env, n, actions, k, name, side))
    decreases |actions|
  {
    if actions == [] {
      assert seen + [] == seen;
    } else {
      var n', taken := Step(env, n, actions[0]), TakenBy(env, n, actions[0], k, name, side);
      RunFirst(env, n, actions, k, name, side);
      StepAccounts(env, n, actions[0], k, name, side, seen);
      RunAccounts(env, n', actions[1..], k, name, side, seen + taken);
      Associate(seen, taken, TakenInRun(env, n', actions[1..], k, name, side));
    }
  }

  /** In every run that takes a link's packets oldest first they are taken in the order of their pushes. */
  lemma TakenInPushOrder(env: Env, count: nat, actions: seq<Action>, k: nat, name: string, side: Side)
    requires k < count && RunTakesOldest(env, Initial(count), actions, k, name, side)
    ensures var n := Run(env, Initial(count), actions);
            && k < |n.kernels|
            && TakenInRun(env, Initial(count), actions, k, name, side) + Outstanding(n, k, name, side) ==
               PushedTo(n.kernels[k].outbox, name)
  {
    RunAccounts(env, Initial(count), actions, k, name, side, []);
    var taken := TakenInRun(env, Initial(count), actions, k, name, side);
    assert [] + taken == taken;
  }

  /** Such a run can always go on: a link that is not empty has an oldest packet. */
  lemma {:induction false} OldestOnLink(flights: seq<Flight>, k: nat, name: string) returns (i: nat)
    requires OnLink(flights, k, name) != []
    ensures i < |flights| && IsOn(flights[i], k, name) && OnLink(flights[..i], k, name) == []
    decreases |flights|
  {
    if IsOn(flights[0], k, name) {
      i := 0;
    } else {
      var j := OldestOnLink(flights[1..], k, name);
      i := j + 1;
      assert flights[..i][1..] == flights[1..][..j];
    }
  }

  lemma {:induction false} NoneUncalled(outbox: seq<P.Push>, called: set<nat>, name: string, from: nat, i: nat)
    requires from <= i < |outbox| && outbox[i].iface.name == name && Uncalled(outbox, called, name, from) == []
    ensures i in called
    decreases i - from
  {
    if from < i {
      NoneUncalled(outbox, called, name, from + 1, i);
    }
  }

  /** Exactly once: with no completion outstanding, each send that put a packet on the link has been told. */
  lemma EverySendIsTold(s: P.State, name: string, i: nat)
    requires Inv(s) && Uncalled(s.outbox, s.called, name, 0) == []
    requires i < |s.outbox| && s.outbox[i].iface.name == name && s.outbox[i].tag.Data?
    ensures Distinct(Called(s.completions)) && s.outbox[i].tag.id in Called(s.completions)
    ensures s.outbox[i].tag.id < |s.sends| && s.sends[s.outbox[i].tag.id].phase == P.Done(P.Ok)
  {
    assert CalledOk(s);
    NoneUncalled(s.outbox, s.called, name, 0, i);
  }

  /** Two prefixes of one list: the shorter begins the longer. */
  lemma PrefixesMeet<T>(a: seq<T>, b: seq<T>, all: seq<T>)
    requires a <= all && b <= all
    ensures if |a| <= |b| then a <= b else b <= a
  {
  }

  lemma MapPrefix<T, U>(f: T -> U, a: seq<T>, b: seq<T>)
    requires a <= b
    ensures Map(f, a) <= Map(f, b)
  {
  }

  /** The packets taken by a run are a prefix of those pushed, in wire form. */
  lemma TakenIsPrefix(
      env: Env, count: nat, actions: seq<Action>, k: nat, name: string, side: Side, wire: P.Packet -> Framing.Message)
    requires k < |Initial(count).kernels| && RunTakesOldest(env, Initial(count), actions, k, name, side)
    ensures k < |Run(env, Initial(count), actions).kernels|
    ensures Map(wire, TakenInRun(env, Initial(count), actions, k, name, side)) <=
            Map(wire, PushedTo(Run(env, Initial(count), actions).kernels[k].outbox, name))
  {
    TakenInPushOrder(env, count, actions, k, name, side);
    MapPrefix(wire, TakenInRun(env, Initial(count), actions, k, name, side),
              PushedTo(Run(env, Initial(count), actions).kernels[k].outbox, name));
  }

  /** The write queue of interface `name` in a run of `Link` is given what kernel `k` pushes to it. */
  ghost predicate Feeds(
      env: Env, count: nat, actions: seq<Action>, k: nat, name: string, wire: P.Packet -> Framing.Message,
      steps: seq<L.Step>)
  {
    var n := Run(env, Initial(count), actions);
    k < |n.kernels| && L.Pushed(steps) == Map(wire, PushedTo(n.kernels[k].outbox, name))
  }

  /**
   * However the bytes have come through: of the packets that the peer has read and those that a run of the
   * network has taken off that link, oldest first, one list begins the other; they are the same packets in
   * the same order as far as both have come.
   */
  lemma PeerReadsWhatIsTaken(
      env: Env, count: nat, actions: seq<Action>, k: nat, name: string,
      steps: seq<L.Step>, wire: P.Packet -> Framing.Message, known: Framing.Message -> bool)
    requires k < |Initial(count).kernels| && RunTakesOldest(env, Initial(count), actions, k, name, Arrivals)
    requires Feeds(env, count, actions, k, name, wire, steps)
    requires forall m :: m in L.Pushed(steps) ==> known(m) && Framing.Framable(m)
    ensures var s := L.Run(L.Initial(), steps);
            var taken := Map(wire, TakenInRun(env, Initial(count), actions, k, name, Arrivals));
            && s.arrived <= |s.sent|
            && var read := L.Received(s, known);
               if |read| <= |taken| then read <= taken else taken <= read
  {
    L.PeerReadsPrefix(steps, known);
    TakenIsPrefix(env, count, actions, k, name, Arrivals, wire);
    PrefixesMeet(L.Received(L.Run(L.Initial(), steps), known),
                 Map(wire, TakenInRun(env, Initial(count), actions, k, name, Arrivals)), L.Pushed(steps));
  }

  /** The same for the packets whose completion the writer has called, and those whose send the run ends. */
  lemma WriterCallsWhatIsTaken(
      env: Env, count: nat, actions: seq<Action>, k: nat, name: string,
      steps: seq<L.Step>, wire: P.Packet -> Framing.Message)
    requires k < |Initial(count).kernels| && RunTakesOldest(env, Initial(count), actions, k, name, Completions)
    requires Feeds(env, count, actions, k, name, wire, steps)
    ensures var called := L.Run(L.Initial(), steps).called;
            var taken := Map(wire, TakenInRun(env, Initial(count), actions, k, name, Completions));
            if |called| <= |taken| then called <= taken else taken <= called
  {
    L.CompletionsInPushOrder(steps);
    TakenIsPrefix(env, count, actions, k, name, Completions, wire);
    PrefixesMeet(L.Run(L.Initial(), steps).called,
                 Map(wire, TakenInRun(env, Initial(count), actions, k, name, Completions)), L.Pushed(steps));
  }

  /**
   * Exactly once, over runs: when the writer has nothing left to do, and the run of the network has called
   * as many completions of the link as the writer, every send with a data packet on it has been told.
   */
  lemma IdleWriterHasToldAll(
      env: Env, count: nat, actions: seq<Action>, k: nat, name: string,
      steps: seq<L.Step>, wire: P.Packet -> Framing.Message, i: nat)
    requires k < |Initial(count).kernels| && RunTakesOldest(env, Initial(count), actions, k, name, Completions)
    requires Feeds(env, count, actions, k, name, wire, steps) && L.Idle(L.Run(L.Initial(), steps))
    requires |TakenInRun(env, Initial(count), actions, k, name, Completions)| == |L.Run(L.Initial(), steps).called|
    requires var outbox := Run(env, Initial(count), actions).kernels[k].outbox;
             i < |outbox| && outbox[i].iface.name == name && outbox[i].tag.Data?
    ensures var s := Run(env, Initial(count), actions).kernels[k];
            Distinct(Called(s.completions)) && s.outbox[i].tag.id in Called(s.completions)
  {
    L.CompletionsInPushOrder(steps);
    TakenInPushOrder(env, count, actions, k, name, Completions);
    RunKeepsKernels(env, Initial(count), actions);
    var s := Run(env, Initial(count), actions).kernels[k];
    assert Inv(s);
    assert |Uncalled(s.outbox, s.called, name, 0)| == 0;
    EverySendIsTold(s, name, i);
  }
}
