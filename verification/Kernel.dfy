/**
 * The kernel object (libavproto/src/avkernel.cpp, `avkernel_impl`). Each method is one step of the
 * coroutines and is proved to change the fields exactly as `Protocol` says.
 */
module Kernel {
  import opened Std
  import opened Address
  import opened Cipher
  import opened KeyStore
  import opened Protocol
  import opened KernelInvariant
  import opened KernelEffects
  import RouteTable

  // ----- Lists under a cursor -----

  lemma KeptAppend(store: Store, src: string, a: seq<Waiter>, wt: Waiter)
    ensures KeptBy(store, src, a + [wt]) ==
            var kept := KeptBy(store, src, a); if Released(store, src, wt) then kept else kept + [wt]
    ensures ReleasedBy(store, src, a + [wt]) ==
            var taken := ReleasedBy(store, src, a); if Released(store, src, wt) then taken + [wt] else taken
  {
    FilterOneMore(a, wt, (x: Waiter) => !Released(store, src, x));
    FilterOneMore(a, wt, (x: Waiter) => Released(store, src, x));
  }

  lemma UnexpiredAppend(a: seq<Waiter>, wt: Waiter, now: int)
    ensures Unexpired(a + [wt], now) ==
            var kept := Unexpired(a, now); if wt.deadline < now then kept else kept + [wt]
    ensures ExpiredOf(a + [wt], now) ==
            var taken := ExpiredOf(a, now); if wt.deadline < now then taken + [wt] else taken
  {
    FilterOneMore(a, wt, (x: Waiter) => x.deadline >= now);
    FilterOneMore(a, wt, (x: Waiter) => x.deadline < now);
  }

  /** `s` with the waiters `front` before its own. */
  function Behind(front: seq<Waiter>, s: State): State {
    s.(waiters := front + s.waiters)
  }

  /** A resumed send only appends to the waiter list: what is in front does not matter. */
  lemma ResumeAppends(w: World, s: State, front: seq<Waiter>, id: nat, now: int)
    ensures ResumeSend(w, Behind(front, s), id, now) == Behind(front, ResumeSend(w, s, id, now))
  {
    var s' := ResumeSend(w, s, id, now);
    if s'.waiters != s.waiters {
      var added := s'.waiters[|s.waiters|..];
      assert front + (s.waiters + added) == front + s.waiters + added;
    }
  }

  lemma {:induction false} ResumeAllAppends(w: World, s: State, front: seq<Waiter>, ids: seq<nat>, clock: nat -> int)
    ensures ResumeAll(w, Behind(front, s), ids, clock) == Behind(front, ResumeAll(w, s, ids, clock))
    decreases |ids|
  {
    if ids != [] {
      ResumeAppends(w, s, front, ids[0], clock(ids[0]));
      ResumeAllAppends(w, ResumeSend(w, s, ids[0], clock(ids[0])), front, ids[1..], clock);
    }
  }

  lemma {:induction false} ResumeAllOneMore(w: World, s: State, ids: seq<nat>, id: nat, clock: nat -> int)
    ensures ResumeAll(w, s, ids + [id], clock) == ResumeSend(w, ResumeAll(w, s, ids, clock), id, clock(id))
    decreases |ids|
  {
    if ids == [] {
      assert [id][1..] == [] && [] + [id] == [id];
    } else {
      assert (ids + [id])[1..] == ids[1..] + [id];
      ResumeAllOneMore(w, ResumeSend(w, s, ids[0], clock(ids[0])), ids[1..], id, clock);
    }
  }

  /** The list is walked as far as `v`, and the sends of the waiters taken from it are resumed. */
  function Walked(
      w: World, base: State, kept: seq<Waiter>, left: seq<Waiter>, ids: seq<nat>, clock: nat -> int): State
  {
    Behind(kept + left, ResumeAll(w, base, ids, clock))
  }

  /** With the whole list visited: the kept waiters, then those that the resumed sends appended. */
  lemma CursorDone(w: World, s: State, kept: seq<Waiter>, ids: seq<nat>, clock: nat -> int)
    ensures ResumeAll(w, s.(waiters := kept), ids, clock) == Walked(w, s.(waiters := []), kept, [], ids, clock)
  {
    assert kept + [] == kept;
    assert Behind(kept, s.(waiters := [])) == s.(waiters := kept);
    ResumeAllAppends(w, s.(waiters := []), kept, ids, clock);
  }

  /**
   * The cursor stands at `wt`: `kept` is behind it, `rest` in front, and what the resumed sends have
   * appended comes last. Resuming `wt`'s send and erasing `wt` is one more send resumed.
   */
  lemma CursorTakes(
      w: World, base: State, ids: seq<nat>, kept: seq<Waiter>, wt: Waiter, rest: seq<Waiter>, clock: nat -> int)
    ensures var s := Behind(kept + ([wt] + rest), ResumeAll(w, base, ids, clock));
            var s' := ResumeSend(w, s, wt.id, clock(wt.id));
            && |kept| < |s.waiters| && s.waiters[|kept|] == wt && |kept| < |s'.waiters|
            && s'.(waiters := RemoveAt(s'.waiters, |kept|)) ==
               Behind(kept + rest, ResumeAll(w, base, ids + [wt.id], clock))
  {
    var front := kept + ([wt] + rest);
    ResumeAllOneMore(w, base, ids, wt.id, clock);
    ResumeAppends(w, ResumeAll(w, base, ids, clock), front, wt.id, clock(wt.id));
    CursorErases(kept, wt, rest, ResumeAll(w, base, ids + [wt.id], clock).waiters);
  }

  lemma CursorErases(kept: seq<Waiter>, wt: Waiter, rest: seq<Waiter>, later: seq<Waiter>)
    ensures RemoveAt(kept + ([wt] + rest) + later, |kept|) == kept + rest + later
  {
  }

  /** Passing over `wt` only moves it from in front of the cursor to behind it. */
  lemma CursorPasses(kept: seq<Waiter>, wt: Waiter, rest: seq<Waiter>)
    ensures kept + ([wt] + rest) == kept + [wt] + rest
  {
  }

  lemma IdsOne(waiters: seq<Waiter>, wt: Waiter)
    ensures Ids(waiters + [wt]) == Ids(waiters) + [wt.id]
  {
    IdsAppend(waiters, [wt]);
    assert [wt][1..] == [];
  }

  /** One turn of the post-processing loop. */
  lemma PostStep(
      w: World, base: State, all: seq<Waiter>, v: nat, kept: seq<Waiter>, ids: seq<nat>,
      store: Store, src: string, clock: nat -> int)
    requires v < |all| && kept == KeptBy(store, src, all[..v]) && ids == Ids(ReleasedBy(store, src, all[..v]))
    ensures var s, wt, rest := Walked(w, base, kept, all[v..], ids, clock), all[v], all[v + 1..];
            && |kept| < |s.waiters| && s.waiters[|kept|] == wt
            && if Released(store, src, wt)
               then
                 var s' := ResumeSend(w, s, wt.id, clock(wt.id));
                 && |kept| < |s'.waiters|
                 && s'.(waiters := RemoveAt(s'.waiters, |kept|)) == Walked(w, base, kept, rest, ids + [wt.id], clock)
                 && kept == KeptBy(store, src, all[..v + 1])
                 && ids + [wt.id] == Ids(ReleasedBy(store, src, all[..v + 1]))
               else
                 && s == Walked(w, base, kept + [wt], rest, ids, clock)
                 && kept + [wt] == KeptBy(store, src, all[..v + 1])
                 && ids == Ids(ReleasedBy(store, src, all[..v + 1]))
  {
    assert all[v..] == [all[v]] + all[v + 1..];
    assert all[..v + 1] == all[..v] + [all[v]];
    KeptAppend(store, src, all[..v], all[v]);
    IdsOne(ReleasedBy(store, src, all[..v]), all[v]);
    CursorTakes(w, base, ids, kept, all[v], all[v + 1..], clock);
    CursorPasses(kept, all[v], all[v + 1..]);
  }

  /** One turn of the timer's loop. */
  lemma TickStep(
      w: World, base: State, all: seq<Waiter>, v: nat, kept: seq<Waiter>, ids: seq<nat>, now: int, clock: nat -> int)
    requires v < |all| && kept == Unexpired(all[..v], now) && ids == Ids(ExpiredOf(all[..v], now))
    ensures var s, wt, rest := Walked(w, base, kept, all[v..], ids, clock), all[v], all[v + 1..];
            && |kept| < |s.waiters| && s.waiters[|kept|] == wt
            && if wt.deadline < now
               then
                 var s' := ResumeSend(w, s, wt.id, clock(wt.id));
                 && |kept| < |s'.waiters|
                 && s'.(waiters := RemoveAt(s'.waiters, |kept|)) == Walked(w, base, kept, rest, ids + [wt.id], clock)
                 && kept == Unexpired(all[..v + 1], now)
                 && ids + [wt.id] == Ids(ExpiredOf(all[..v + 1], now))
               else
                 && s == Walked(w, base, kept + [wt], rest, ids, clock)
                 && kept + [wt] == Unexpired(all[..v + 1], now)
                 && ids == Ids(ExpiredOf(all[..v + 1], now))
  {
    assert all[v..] == [all[v]] + all[v + 1..];
    assert all[..v + 1] == all[..v] + [all[v]];
    UnexpiredAppend(all[..v], all[v], now);
    IdsOne(ExpiredOf(all[..v], now), all[v]);
    CursorTakes(w, base, ids, kept, all[v], all[v + 1..], clock);
    CursorPasses(kept, all[v], all[v + 1..]);
  }

  lemma WalkStarts(w: World, s: State, clock: nat -> int)
    ensures s == Walked(w, s.(waiters := []), [], s.waiters[0..], [], clock) && s.waiters[..0] == []
  {
    assert [] + s.waiters[0..] + [] == s.waiters;
  }

  /** Every waiter that the resumed sends have appended is due after `now`. */
  ghost predicate AllLater(waiters: seq<Waiter>, now: int) {
    forall wt :: wt in waiters ==> wt.deadline >= now
  }

  lemma AppendedLater(w: World, base: State, ids: seq<nat>, id: nat, now: int, clock: nat -> int)
    requires clock(id) + WAIT_FOR_KEY >= now && AllLater(ResumeAll(w, base, ids, clock).waiters, now)
    ensures AllLater(ResumeAll(w, base, ids + [id], clock).waiters, now)
  {
    ResumeAllOneMore(w, base, ids, id, clock);
  }

  /**
   * What the timer's loop keeps: of the waiters `all` that were there at its start it has visited
   * `v`; once all are visited the cursor `i` moves over what the resumed sends have appended.
   */
  ghost predicate TickLoop(
      w: World, s: State, base: State, all: seq<Waiter>, v: nat, kept: seq<Waiter>, ids: seq<nat>,
      now: int, clock: nat -> int, i: nat)
  {
    && v <= |all| && kept == Unexpired(all[..v], now) && ids == Ids(ExpiredOf(all[..v], now))
    && s == Walked(w, base, kept, all[v..], ids, clock)
    && AllLater(ResumeAll(w, base, ids, clock).waiters, now)
    && if v < |all| then i == |kept| else |kept| <= i <= |s.waiters|
  }

  /** A turn of the timer's loop while waiters that were there at its start remain. */
  lemma TickVisits(
      w: World, s: State, base: State, all: seq<Waiter>, v: nat, kept: seq<Waiter>, ids: seq<nat>,
      now: int, clock: nat -> int, i: nat)
    requires TickLoop(w, s, base, all, v, kept, ids, now, clock, i) && v < |all|
    requires Forward(now, clock)
    ensures i < |s.waiters| &&
            var wt := s.waiters[i];
            if wt.deadline < now
            then
              var s' := ResumeSend(w, s, wt.id, clock(wt.id));
              i < |s'.waiters| &&
              TickLoop(
                w, s'.(waiters := RemoveAt(s'.waiters, i)), base, all, v + 1, kept, ids + [wt.id], now, clock, i)
            else TickLoop(w, s, base, all, v + 1, kept + [wt], ids, now, clock, i + 1)
  {
    TickStep(w, base, all, v, kept, ids, now, clock);
    AppendedLater(w, base, ids, all[v].id, now, clock);
  }

  /** A turn behind them: nothing has expired there, and the cursor moves on. */
  lemma TickPasses(
      w: World, s: State, base: State, all: seq<Waiter>, v: nat, kept: seq<Waiter>, ids: seq<nat>,
      now: int, clock: nat -> int, i: nat)
    requires TickLoop(w, s, base, all, v, kept, ids, now, clock, i) && v == |all| && i < |s.waiters|
    ensures s.waiters[i].deadline >= now
    ensures TickLoop(w, s, base, all, v, kept, ids, now, clock, i + 1)
  {
    var later := ResumeAll(w, base, ids, clock).waiters;
    assert all[v..] == [] && kept + [] == kept;
    assert s.waiters[i] == later[i - |kept|];
  }

  /** The loop ends with every waiter visited. */
  lemma TickEnds(
      w: World, s: State, base: State, all: seq<Waiter>, v: nat, kept: seq<Waiter>, ids: seq<nat>,
      now: int, clock: nat -> int, i: nat)
    requires TickLoop(w, s, base, all, v, kept, ids, now, clock, i) && i >= |s.waiters|
    ensures kept == Unexpired(all, now) && ids == Ids(ExpiredOf(all, now))
    ensures s == Walked(w, base, kept, [], ids, clock)
  {
    assert v == |all| && all[..v] == all && all[v..] == [];
  }

  /** How often the sends may still be released from a wait. */
  function Patience(sends: seq<Send>): nat {
    if sends == [] then 0 else PatienceOf(sends[0]) + Patience(sends[1..])
  }

  lemma {:induction false} PatienceUpdate(sends: seq<Send>, i: nat, send: Send)
    requires i < |sends|
    ensures Patience(sends[i := send]) == Patience(sends) - PatienceOf(sends[i]) + PatienceOf(send)
    decreases |sends|
  {
    if i == 0 {
      assert sends[i := send][1..] == sends[1..];
    } else {
      assert sends[i := send][1..] == sends[1..][i - 1 := send];
      PatienceUpdate(sends[1..], i - 1, send);
    }
  }

  /** Every release costs patience: the send asks once more, transmits, or gives up. */
  lemma ReleaseCosts(w: World, s: State, id: nat, rest: seq<nat>, now: int)
    requires InvWith(s, [id] + rest)
    ensures Patience(ResumeSend(w, s, id, now).sends) < Patience(s.sends)
  {
    LooseIsWaiting(s, id, rest);
    PatienceUpdate(s.sends, id, ResumeSend(w, s, id, now).sends[id]);
    assert ResumeSend(w, s, id, now).sends == s.sends[id := ResumeSend(w, s, id, now).sends[id]];
  }

  lemma {:induction false} IdsWithout(waiters: seq<Waiter>, i: nat)
    requires i < |waiters|
    ensures multiset(Ids(RemoveAt(waiters, i)) + [waiters[i].id]) == multiset(Ids(waiters))
  {
    SplitAt(waiters, i);
    IdsAppend(waiters[..i] + [waiters[i]], waiters[i + 1..]);
    IdsOne(waiters[..i], waiters[i]);
    IdsAppend(waiters[..i], waiters[i + 1..]);
  }

  lemma WithoutOneLoose(s: State, i: nat)
    requires Inv(s) && i < |s.waiters|
    ensures InvWith(s.(waiters := RemoveAt(s.waiters, i)), [s.waiters[i].id] + [])
  {
    var s' := s.(waiters := RemoveAt(s.waiters, i));
    IdsWithout(s.waiters, i);
    SplitKeepsWaiters(s, s'.waiters, [s.waiters[i].id]);
    SendsFrame(s, s');
    assert [s.waiters[i].id] + [] == [s.waiters[i].id];
  }

  /** Erasing a waiter after its send has resumed is as good as before. */
  lemma EraseCommutes(w: World, s: State, i: nat, now: int)
    requires i < |s.waiters|
    ensures var s', id := ResumeSend(w, s, s.waiters[i].id, now), s.waiters[i].id;
            && |s.waiters| <= |s'.waiters| && s'.waiters[..i] == s.waiters[..i]
            && s'.(waiters := RemoveAt(s'.waiters, i)) == ResumeSend(w, s.(waiters := RemoveAt(s.waiters, i)), id, now)
  {
    var s' := ResumeSend(w, s, s.waiters[i].id, now);
    if s'.waiters != s.waiters {
      var wt := s'.waiters[|s.waiters|];
      assert s'.waiters == s.waiters + [wt];
      assert RemoveAt(s.waiters + [wt], i) == RemoveAt(s.waiters, i) + [wt];
    }
  }

  /** One visit of an expired waiter, whatever the time its send reads. */
  lemma VisitKeeps(w: World, s: State, i: nat, now: int)
    requires Inv(s) && i < |s.waiters|
    ensures var s' := ResumeSend(w, s, s.waiters[i].id, now);
            && i < |s'.waiters| && s'.waiters[..i] == s.waiters[..i]
            && Inv(s'.(waiters := RemoveAt(s'.waiters, i)))
            && Patience(s'.sends) < Patience(s.sends)
  {
    var s1, id := s.(waiters := RemoveAt(s.waiters, i)), s.waiters[i].id;
    WithoutOneLoose(s, i);
    ResumeKeeps(w, s1, id, [], now);
    ReleaseCosts(w, s1, id, [], now);
    EraseCommutes(w, s, i, now);
  }

  /** What the timer's loop keeps, whatever the clock does: nobody behind the cursor has expired. */
  ghost predicate WalkOk(
      w: World, s: State, base: State, all: seq<Waiter>, v: nat, kept: seq<Waiter>, ids: seq<nat>,
      now: int, clock: nat -> int, i: nat)
  {
    && Inv(s) && i <= |s.waiters| && (forall j :: 0 <= j < i ==> s.waiters[j].deadline >= now)
    && (Forward(now, clock) ==> TickLoop(w, s, base, all, v, kept, ids, now, clock, i))
  }

  lemma WalkBegins(w: World, s: State, now: int, clock: nat -> int)
    requires Inv(s)
    ensures WalkOk(w, s, s.(waiters := []), s.waiters, 0, [], [], now, clock, 0)
  {
    WalkStarts(w, s, clock);
  }

  /** The waiter at the cursor has expired: its send resumes, and it is erased. */
  lemma WalkReleases(
      w: World, s: State, base: State, all: seq<Waiter>, v: nat, kept: seq<Waiter>, ids: seq<nat>,
      now: int, clock: nat -> int, i: nat)
    requires WalkOk(w, s, base, all, v, kept, ids, now, clock, i) && i < |s.waiters| && s.waiters[i].deadline < now
    ensures var id := s.waiters[i].id;
            var s' := ResumeSend(w, s, id, clock(id));
            && i < |s'.waiters| && Patience(s'.sends) < Patience(s.sends)
            && WalkOk(w, s'.(waiters := RemoveAt(s'.waiters, i)), base, all, v + 1, kept, ids + [id], now, clock, i)
  {
    VisitKeeps(w, s, i, clock(s.waiters[i].id));
    if Forward(now, clock) {
      if v < |all| {
        TickVisits(w, s, base, all, v, kept, ids, now, clock, i);
      } else {
        TickPasses(w, s, base, all, v, kept, ids, now, clock, i);
      }
    }
    var s' := ResumeSend(w, s, s.waiters[i].id, clock(s.waiters[i].id));
    assert RemoveAt(s'.waiters, i)[..i] == s'.waiters[..i];
    forall j | 0 <= j < i
      ensures RemoveAt(s'.waiters, i)[j] == s.waiters[j]
    {
      assert s'.waiters[..i][j] == s.waiters[..i][j];
    }
  }

  /** It has not: the cursor moves on. */
  lemma WalkPasses(
      w: World, s: State, base: State, all: seq<Waiter>, v: nat, kept: seq<Waiter>, ids: seq<nat>,
      now: int, clock: nat -> int, i: nat)
    requires WalkOk(w, s, base, all, v, kept, ids, now, clock, i) && i < |s.waiters| && s.waiters[i].deadline >= now
    ensures if v < |all| then WalkOk(w, s, base, all, v + 1, kept + [s.waiters[i]], ids, now, clock, i + 1)
            else WalkOk(w, s, base, all, v, kept, ids, now, clock, i + 1)
  {
    if Forward(now, clock) {
      if v < |all| {
        TickVisits(w, s, base, all, v, kept, ids, now, clock, i);
      } else {
        TickPasses(w, s, base, all, v, kept, ids, now, clock, i);
      }
    }
  }

  lemma WalkEnds(
      w: World, s: State, s0: State, v: nat, kept: seq<Waiter>, ids: seq<nat>, now: int, clock: nat -> int, i: nat)
    requires WalkOk(w, s, s0.(waiters := []), s0.waiters, v, kept, ids, now, clock, i) && i >= |s.waiters|
    ensures Inv(s) && forall wt :: wt in s.waiters ==> wt.deadline >= now
    ensures Forward(now, clock) ==> s == Tick(w, s0, now, clock)
  {
    if Forward(now, clock) {
      TickEnds(w, s, s0.(waiters := []), s0.waiters, v, kept, ids, now, clock, i);
      CursorDone(w, s0, kept, ids, clock);
    }
  }

  /** Every waiter belongs to a send for its target. */
  ghost predicate Targeted(waiters: seq<Waiter>, sends: seq<Send>) {
    forall wt :: wt in waiters ==> wt.id < |sends| && sends[wt.id].target == wt.target
  }

  /** What the post-processing loop keeps: nothing appended, and waiters match their sends. */
  ghost predicate PostLoop(
      w: World, base: State, all: seq<Waiter>, kept: seq<Waiter>, left: seq<Waiter>, ids: seq<nat>, clock: nat -> int)
  {
    && Targeted(all, Walked(w, base, kept, left, ids, clock).sends)
    && ResumeAll(w, base, ids, clock).waiters == []
    && ResumeAll(w, base, ids, clock).store == base.store
  }

  /** A released waiter's send finds its key, so it transmits and does not come back. */
  lemma PostTakes(
      w: World, base: State, all: seq<Waiter>, kept: seq<Waiter>, left: seq<Waiter>, rest: seq<Waiter>,
      ids: seq<nat>, wt: Waiter, src: string, clock: nat -> int)
    requires PostLoop(w, base, all, kept, left, ids, clock) && wt in all && Released(base.store, src, wt)
    ensures PostLoop(w, base, all, kept, rest, ids + [wt.id], clock)
  {
    ResumeAllOneMore(w, base, ids, wt.id, clock);
  }

  lemma CutHead(k: PubKey, later: seq<PubKey>, now: int)
    ensures Cut([k] + later, now) == if Expired(k, now) then [] else [k] + Cut(later, now)
  {
    assert ([k] + later)[1..] == later;
  }

  lemma RegroupKeys(front: seq<PubKey>, k: PubKey, back: seq<PubKey>)
    ensures front + ([k] + back) == front + [k] + back && front + [] == front
  {
  }

  lemma CutStep(keys: seq<PubKey>, i: nat, now: int)
    requires i < |keys|
    ensures keys[..i] + Cut(keys[i..], now) ==
            if Expired(keys[i], now) then keys[..i] else keys[..i + 1] + Cut(keys[i + 1..], now)
  {
    var k, later := keys[i], keys[i + 1..];
    assert keys[i..] == [k] + later;
    CutHead(k, later, now);
    RegroupKeys(keys[..i], k, Cut(later, now));
    assert keys[..i + 1] == keys[..i] + [k];
  }

  class Kernel {
    const w: World
    var ifs: map<string, Iface>
    var routes: seq<RouteTable.Route>
    var store: Store
    var recv: seq<(string, Bytes)>
    var waiters: seq<Waiter>
    var sends: seq<Send>
    var outbox: seq<Push>
    var called: set<nat>
    var completions: seq<Completion>
    var faulted: bool

    ghost function View(): State
      reads this
    {
      State(ifs, routes, store, recv, waiters, sends, outbox, called, completions, faulted)
    }

    constructor (w: World)
      ensures View() == Initial() && Inv(View()) && this.w == w
    {
      this.w := w;
      ifs, routes, store, recv := map[], [], map[], [];
      waiters, sends, outbox, called, completions, faulted := [], [], [], {}, [], false;
      new;
      assert Ids([]) + [] == [];
    }

    // ----- Interfaces and routes -----

    method AddInterface(iface: Iface) returns (ok: bool)
      requires Inv(View())
      modifies this
      ensures View() == Protocol.AddInterface(old(View()), iface) && Inv(View())
      ensures ok
    {
      AddInterfaceKeeps(View(), iface);
      if iface.name !in ifs {
        ifs := ifs[iface.name := iface];
      }
      ok := iface.name in ifs;
    }

    /** `is_to_me`: the interfaces are compared one after another, in no particular order here. */
    method IsToMe(dest: Address) returns (b: bool)
      ensures b == Protocol.IsToMe(View(), dest)
      ensures b <==> exists name :: name in ifs && ifs[name].addr.username == dest.username
                                      && ifs[name].addr.domain == dest.domain
    {
      var left := ifs.Keys;
      while left != {}
        invariant left <= ifs.Keys
        invariant forall name :: name in ifs && name !in left ==>
                    !(ifs[name].addr.username == dest.username && ifs[name].addr.domain == dest.domain)
        decreases left
      {
        var name :| name in left;
        if ifs[name].addr.username == dest.username && ifs[name].addr.domain == dest.domain {
          return true;
        }
        left := left - {name};
      }
      b := false;
    }

    /** `select_route`: the first matching route, whose interface must be there. */
    method SelectRoute(address: string) returns (selected: Selected)
      ensures selected == Protocol.SelectRoute(w, View(), address)
      ensures RoutesOk(View()) ==> !selected.Missing?
    {
      if RoutesOk(View()) {
        SelectNeverMisses(w, View(), address);
      }
      var i := 0;
      while i < |routes|
        invariant 0 <= i <= |routes|
        invariant RouteTable.Select(w.matches, routes, address) == RouteTable.Select(w.matches, routes[i..], address)
      {
        if w.matches(routes[i].pattern, address) {
          return if routes[i].ifname in ifs then Via(ifs[routes[i].ifname]) else Missing;
        }
        assert routes[i..][1..] == routes[i + 1..];
        i := i + 1;
      }
      selected := NoRoute;
    }

    /** `add_route`: refused unless the interface exists; the table is sorted again. */
    method AddRoute(pattern: string, gateway: string, ifname: string, metric: int) returns (ok: bool)
      requires Inv(View())
      modifies this`routes
      ensures Inv(View()) && ok == (ifname in ifs)
      ensures var r := RouteTable.Route(pattern, gateway, ifname, metric);
              if ok then RouteTable.IsSorting(old(routes) + [r], routes) else routes == old(routes)
    {
      if ifname in ifs {
        var r := RouteTable.Route(pattern, gateway, ifname, metric);
        var sorted := RouteTable.Sort(routes + [r]);
        AddRouteKeeps(View(), r, sorted);
        routes := sorted;
        ok := true;
      } else {
        ok := false;
      }
    }

    /** `remove_interface`: search from the start, erase, search again. */
    method RemoveInterface(name: string)
      requires Inv(View())
      modifies this`routes, this`ifs
      ensures View() == Protocol.RemoveInterface(old(View()), name) && Inv(View())
      ensures ifs == old(ifs) - {name} && routes == Filter(old(routes), (r: RouteTable.Route) => r.ifname != name)
    {
      RemoveInterfaceKeeps(View(), name);
      RemoveRoutes(name);
      ifs := ifs - {name};
    }

    method RemoveRoutes(name: string)
      modifies this`routes
      ensures routes == RouteTable.Without(old(routes), name)
    {
      var at := FindRoute(name);
      while at.Some?
        invariant RouteTable.Without(routes, name) == RouteTable.Without(old(routes), name)
        invariant match at
                  case Some(i) => 0 <= i < |routes| && routes[i].ifname == name
                  case None => forall r :: r in routes ==> r.ifname != name
        decreases |routes| + if at.Some? then 1 else 0
      {
        RouteTable.WithoutErase(routes, at.value, name);
        routes := RemoveAt(routes, at.value);
        at := FindRoute(name);
      }
      RouteTable.WithoutNothing(routes, name);
    }

    method FindRoute(name: string) returns (at: Option<nat>)
      ensures match at
              case Some(i) => 0 <= i < |routes| && routes[i].ifname == name
              case None => forall r :: r in routes ==> r.ifname != name
    {
      for i := 0 to |routes|
        invariant forall j :: 0 <= j < i ==> routes[j].ifname != name
      {
        if routes[i].ifname == name {
          return Some(i);
        }
      }
      at := None;
    }

    // ----- Keys -----

    /** `add_RSA_pubkey`; `sorted` is the order in which the sort has left the keys. */
    method AddKey(address: string, key: Modulus, validUntil: int) returns (ghost sorted: seq<PubKey>)
      modifies this`store
      ensures IsSorting(KeysOf(old(store), address) + [PubKey(key, validUntil)], sorted)
      ensures store == Protocol.AddKey(old(store), address, sorted)
    {
      var keys := KeyStore.Sort(KeysOf(store, address) + [PubKey(key, validUntil)]);
      store := store[address := keys];
      sorted := keys;
    }

    /** The inner loop of the purge. */
    method CutKeys(keys: seq<PubKey>, now: int) returns (cut: seq<PubKey>)
      ensures cut == Cut(keys, now)
    {
      cut := keys;
      var i := 0;
      while i < |cut|
        invariant 0 <= i <= |cut| && cut == keys
        invariant Cut(keys, now) == keys[..i] + Cut(keys[i..], now)
      {
        CutStep(keys, i, now);
        if Expired(cut[i], now) {
          return cut[..i];
        }
        i := i + 1;
      }
    }

    /** `purge_RSA_pubkey` along the map's order; false if the iterator steps past the end. */
    method PurgeKeys(order: seq<string>, now: int) returns (ok: bool)
      modifies this`store
      ensures PurgeAlong(old(store), order, now) == if ok then Ended(store) else Overran(store)
    {
      var i := 0;
      while i < |order|
        invariant 0 <= i <= |order|
        invariant PurgeAlong(old(store), order, now) == PurgeAlong(store, order[i..], now)
      {
        var rest := order[i..];
        var keys := CutKeys(KeysOf(store, order[i]), now);
        assert rest[1..] == order[i + 1..];
        if keys != [] {
          store := store[order[i] := keys];
        } else {
          store := store - {order[i]};
          i := i + 1;
          if i == |order| {
            return false;
          }
          assert rest[2..] == order[i + 1..];
        }
        i := i + 1;
      }
      ok := true;
    }

    /**
     * `timer2_tick`: the iterator stays inside the map exactly if an even number of dead entries ends
     * it; the store is purged as intended exactly if it is `Skippable`.
     */
    method Timer2Tick(order: seq<string>, now: int) returns (ok: bool)
      requires Inv(View()) && Lists(order, store)
      modifies this`store
      ensures View() == old(View()).(store := PurgeAlong(old(store), order, now).store)
      ensures Inv(View()) && Shrinks(old(store), store)
      ensures ok <==> DeadTail(old(store), order, now) % 2 == 0
      ensures ok && store == Purged(old(store), now) <==> Skippable(old(store), order, now)
    {
      PurgeIsExact(store, order, now);
      StaysInsideExactly(store, order, now);
      PurgeKeeps(View(), order, now);
      PurgeShrinks(store, order, now);
      ok := PurgeKeys(order, now);
    }

    // ----- Sending -----

    /** `async_send_agmp_pkask`, and the wait that follows it. */
    method AskForKey(id: nat, now: int)
      requires id < |sends| && sends[id].iface.Some?
      modifies this
      ensures View() == Protocol.AskForKey(old(View()), id, now)
    {
      var send := sends[id];
      var iface := send.iface.value;
      outbox := outbox + [Push(iface, AskPacket(iface, send.target), Ask(id))];
      waiters := waiters + [Waiter(now + WAIT_FOR_KEY, send.target, id)];
      sends := sends[id := send.(asks := send.asks + 1, phase := Waiting)];
    }

    /** A send runs from its test of `target_pubkey` to its next suspension or its end. */
    method ResumeSend(id: nat, now: int)
      modifies this
      ensures View() == Protocol.ResumeSend(w, old(View()), id, now)
    {
      if id >= |sends| || sends[id].iface.None? {
        return;
      }
      var send := sends[id];
      var key := Find(store, send.target);
      if key.None? {
        if send.asks < MAX_ASKS {
          AskForKey(id, now);
        } else {
          sends := sends[id := send.(phase := Done(Unreachable))];
          completions := completions + [Completion(id, Unreachable)];
        }
      } else {
        var iface := send.iface.value;
        var packet := DataPacket(w, iface, send.target, key.value, send.draw, send.data);
        outbox := outbox + [Push(iface, packet, Data(id))];
        sends := sends[id := send.(phase := Writing)];
      }
    }

    /** A released waiter at position `i`: its handler is called first, then it is erased. */
    method ResumeAndErase(i: nat, now: int)
      requires i < |waiters|
      modifies this
      ensures var s := Protocol.ResumeSend(w, old(View()), old(waiters)[i].id, now);
              i < |s.waiters| && View() == s.(waiters := RemoveAt(s.waiters, i))
    {
      ResumeSend(waiters[i].id, now);
      waiters := RemoveAt(waiters, i);
    }

    /** `async_sendto_op` from its start. */
    method AsyncSendtoOp(target: string, data: Bytes, draw: nat, now: int)
      modifies this
      ensures View() == Start(w, old(View()), target, data, draw, now)
    {
      var id := |sends|;
      var selected := SelectRoute(target);
      match selected {
        case Via(iface) =>
          sends := sends + [Send(target, data, draw, Some(iface), 0, Waiting)];
          ResumeSend(id, now);
        case NoRoute =>
          sends := sends + [Send(target, data, draw, None, 0, Done(Unreachable))];
          completions := completions + [Completion(id, Unreachable)];
        case Missing =>
          faulted := true;
      }
    }

    /** `async_sendto`; a missing interface does not occur. */
    method AsyncSendto(target: string, data: Bytes, draw: nat, now: int)
      requires Inv(View())
      modifies this
      ensures View() == Start(w, old(View()), target, data, draw, now) && Inv(View())
      ensures |sends| == |old(sends)| + 1
    {
      StartKeeps(w, View(), target, data, draw, now);
      SelectNeverMisses(w, View(), target);
      AsyncSendtoOp(target, data, draw, now);
    }

    /** The writer coroutine has written the packet at position `i` and calls its completion. */
    method WriteCompleted(i: nat)
      requires Inv(View()) && i < |outbox| && i !in called
      modifies this
      ensures View() == Protocol.WriteCompleted(old(View()), i) && Inv(View())
      ensures completions == old(completions) + if outbox[i].tag.Data? then [Completion(outbox[i].tag.id, Ok)] else []
    {
      WriteCompletedKeeps(View(), i);
      if outbox[i].tag.Data? {
        CompletionIsAwaited(View(), i);
      }
      called := called + {i};
      if outbox[i].tag.Data? {
        var id := outbox[i].tag.id;
        sends := sends[id := sends[id].(phase := Done(Ok))];
        completions := completions + [Completion(id, Ok)];
      }
    }

    // ----- Timer -----

    /**
     * The loop of `timer1_tick`. The list is erased from while it is walked, and the senders released
     * by the walk append to it; each of them reads the clock for itself. Whatever they read, the loop
     * ends, because a sender asks a limited number of times. Unless the clock steps back by more than the
     * 8 seconds of a wait, nobody who appends is released by the same walk.
     */
    method ReleaseExpired(now: int, clock: nat -> int)
      requires Inv(View())
      modifies this
      ensures Inv(View()) && forall wt :: wt in waiters ==> wt.deadline >= now
      ensures Forward(now, clock) ==> View() == Tick(w, old(View()), now, clock)
    {
      ghost var all, base := waiters, View().(waiters := []);
      ghost var v, ids, kept := 0, [], [];
      WalkBegins(w, View(), now, clock);
      var i := 0;
      while i < |waiters|
        invariant WalkOk(w, View(), base, all, v, kept, ids, now, clock, i) == true
        decreases Patience(sends), |waiters| - i
      {
        var wt := waiters[i];
        if wt.deadline < now {
          WalkReleases(w, View(), base, all, v, kept, ids, now, clock, i);
          ResumeAndErase(i, clock(wt.id));
          v, ids := v + 1, ids + [wt.id];
        } else {
          WalkPasses(w, View(), base, all, v, kept, ids, now, clock, i);
          i := i + 1;
          if v < |all| {
            v, kept := v + 1, kept + [wt];
          }
        }
      }
      WalkEnds(w, View(), old(View()), v, kept, ids, now, clock, i);
    }

    /** `timer1_tick`: afterwards nobody on the list has expired. */
    method Timer1Tick(now: int, clock: nat -> int)
      requires Inv(View())
      modifies this
      ensures Inv(View()) && forall wt :: wt in waiters ==> wt.deadline >= now
      ensures Forward(now, clock) ==> View() == Tick(w, old(View()), now, clock)
    {
      ReleaseExpired(now, clock);
    }

    // ----- Receiving -----

    /** The loop of the scope-exit block: every waiter the packet satisfies is resumed and erased. */
    method PostProcess(src: string, now: int)
      requires Targeted(waiters, sends)
      modifies this
      ensures View() == Protocol.PostProcess(w, old(View()), src, now)
    {
      ghost var clock := (_: nat) => now;
      ghost var all, base := waiters, View().(waiters := []);
      ghost var v, ids, kept := 0, [], [];
      WalkStarts(w, View(), clock);
      var i := 0;
      while i < |waiters|
        invariant 0 <= v <= |all| && i == |kept|
        invariant kept == KeptBy(old(store), src, all[..v]) && ids == Ids(ReleasedBy(old(store), src, all[..v]))
        invariant View() == Walked(w, base, kept, all[v..], ids, clock)
        invariant PostLoop(w, base, all, kept, all[v..], ids, clock)
        decreases |all| - v
      {
        PostStep(w, base, all, v, kept, ids, store, src, clock);
        var wt := waiters[i];
        assert store == old(store);
        if Released(store, src, wt) {
          PostTakes(w, base, all, kept, all[v..], all[v + 1..], ids, wt, src, clock);
          ResumeAndErase(i, now);
          ids := ids + [wt.id];
        } else {
          i := i + 1;
          kept := kept + [wt];
        }
        v := v + 1;
      }
      assert all[..v] == all && all[v..] == [];
      CursorDone(w, old(View()), kept, ids, clock);
    }

    /** `process_recived_packet_to_me` */
    method ProcessToMe(p: Packet, arrival: Iface, now: int) returns (ghost sorted: seq<PubKey>)
      modifies this
      ensures View() == ToMe(w, old(View()), p, arrival, sorted)
      ensures p.kind.PkReply? ==> IsSorting(WithReply(w, old(View()), p, now), sorted)
    {
      var a := ToString(p.src);
      sorted := [];
      if p.kind.PkAsk? {
        outbox := outbox + [Push(arrival, ReplyPacket(w, arrival, a), Reply)];
        return;
      }
      if p.kind.PkReply? {
        var crt := if p.payload.Some? then p.payload.value else [];
        sorted := AddKey(a, w.certKey(crt), now + KEY_LIFETIME);
        return;
      }
      var data: Option<Bytes> := Some([]);
      if p.payload.Some? {
        var sender := if p.publickey.Some? then p.publickey.value else [];
        data := Open(w.rsa(sender), w.rsa(arrival.key), p.payload.value);
      }
      if data.None? {
        faulted := true;
      } else if p.kind.Avim? {
        recv := recv + [(a, data.value)];
      }
    }

    /** `process_recived_packet` up to its return. */
    method DispatchPacket(p: Packet, arrival: Iface, now: int) returns (ghost sorted: seq<PubKey>)
      modifies this
      ensures View() == Dispatched(w, old(View()), p, arrival, now, sorted)
      ensures SortChoice(w, old(View()), p, now, sorted)
    {
      var a := ToString(p.src);
      if p.publickey.Some? && Find(store, a).None? {
        var key := PubKey(p.publickey.value, now + KEY_LIFETIME);
        assert KeysOf(store, a) + [key] == [key];
        sorted := AddKey(a, key.key, key.validUntil);
        SortingOneKey(key, sorted);
      }
      assert View() == Learn(old(View()), p, now);
      sorted := [];
      var mine := IsToMe(p.dest);
      if mine {
        sorted := ProcessToMe(p, arrival, now);
        return;
      }
      if p.ttl <= 1 {
        return;
      }
      var selected := SelectRoute(ToString(p.dest));
      match selected {
        case NoRoute =>
        case Via(iface) => outbox := outbox + [Push(iface, p.(ttl := p.ttl - 1), Forwarded)];
        case Missing => faulted := true;
      }
    }

    /** `process_recived_packet`, with its scope-exit block. */
    method ProcessReceivedPacket(p: Packet, arrival: Iface, now: int) returns (ghost sorted: seq<PubKey>)
      requires Inv(View())
      modifies this
      ensures SortChoice(w, old(View()), p, now, sorted)
      ensures View() == Process(w, old(View()), p, arrival, now, sorted) && Inv(View())
      ensures forall wt :: wt in old(waiters) ==> (wt in waiters <==> wt.target !in store)
    {
      ghost var before := View();
      sorted := DispatchPacket(p, arrival, now);
      DispatchedKeeps(w, before, p, arrival, now, sorted);
      ProcessKeeps(w, before, p, arrival, now, sorted);
      ReleasedWhenKeyArrives(w, before, p, arrival, now, sorted);
      PostProcess(ToString(p.src), now);
    }
  }
}
