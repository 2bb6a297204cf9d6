/** That a partner record reaches the thread that waits for it, and what calls and workers have left to do
    (usb/usb/Usb.cpp:339-351, 392-445, 714-825, 836-871). */
module UsbProgress {
  import opened Wrappers
  import opened Uevent
  import opened UsbProtocol
  import opened UsbInvariants
  import opened UsbLifecycle
  import opened UsbHandshake
  import opened UsbReachable
  import opened UsbTraces

  // ---------- No lost wakeup ----------

  predicate IsSignalling(pc: Pc) {
    pc.Work? && pc.w.SignalPartner?
  }

  ghost predicate SomeSignaller(s: State) {
    exists t: Thread :: IsSignalling(s.At(t))
  }

  /** While mPartnerUp is set a thread waits only if the signal for it is still to come. */
  ghost predicate NoneForgotten(s: State) {
    s.vars.partnerUp && SomeWaiter(s) ==> SomeSignaller(s)
  }

  /** The steps that set mPartnerUp lead to the signal, and those that start a wait come from the test of it. */
  predicate Signals(pc: Pc, i: Instr) {
    && (i.AssignPartnerUp? && i.up ==> IsSignalling(i.next))
    && (IsSignalling(pc) ==> i.SignalWaiter?)
    && (!i.Stop? && IsWaiting(i.next) ==> pc.Switch? && pc.s.StartWait? && i.Wait?)
    && (Branches(i) ==> !IsWaiting(i.otherwise))
  }

  lemma SwitchSignals(p: SwitchPc, c: Choice)
    ensures Signals(Switch(p), SwitchProgram(p, c))
  {
  }

  lemma CallSignals(p: CallPc, c: Choice)
    ensures Signals(Call(p), CallProgram(p, c))
  {
  }

  lemma WorkSignals(p: WorkPc, c: Choice)
    ensures Signals(Work(p), WorkProgram(p, c))
  {
  }

  lemma ProgramSignals(pc: Pc, c: Choice)
    ensures Signals(pc, Program(pc, c))
  {
    match pc {
      case Switch(p) => SwitchSignals(p, c);
      case Call(p) => CallSignals(p, c);
      case Work(p) => WorkSignals(p, c);
      case Idle =>
      case Ended =>
    }
    hide SwitchProgram, CallProgram, WorkProgram;
  }

  /** After a signal nobody waits: there was at most one waiter. */
  lemma SignalWakesAll(s: State, t: Thread, i: Instr, c: Choice)
    requires Reachable(s) && Exec(s, t, i, c).Some? && i.SignalWaiter? && !IsWaiting(i.next)
    ensures !SomeWaiter(Exec(s, t, i, c).value)
  {
    Moves(s, t, i, c);
    var s' := Exec(s, t, i, c).value;
    hide Reachable, NextPcs;
    forall x: Thread ensures !IsWaiting(s'.At(x)) {
      if x != t && IsWaiting(s.At(x)) {
        OneWaiter(s, x, c.waiter);
      }
    }
  }

  /** A thread that starts to wait has found mPartnerUp clear. */
  lemma WaitsOnlyUnset(s: State, t: Thread)
    requires Reachable(s) && s.At(t).Switch? && s.At(t).s.StartWait?
    ensures !s.vars.partnerUp
  {
    ReachableInvariant(s);
    assert ThreadOk(t, s.At(t), s.vars.partnerUp, Monitor(s.log, t), LastWrite(s.log));
    hide Reachable, Monitor, LastWrite, Holder, LogOk, Lifecycle, LocksMatch, WellTyped;
  }

  lemma StepForgetsNone(s: State, t: Thread, c: Choice)
    requires Reachable(s) && NoneForgotten(s) && Step(s, t, c).Some?
    ensures NoneForgotten(Step(s, t, c).value)
  {
    var i := Program(s.At(t), c);
    var s' := Step(s, t, c).value;
    Moves(s, t, i, c);
    ProgramSignals(s.At(t), c);
    if i.SignalWaiter? {
      SignalWakesAll(s, t, i, c);
    } else if i.Wait? && IsWaiting(i.next) {
      WaitsOnlyUnset(s, t);
    } else if s'.vars.partnerUp && SomeWaiter(s') {
      if i.AssignPartnerUp? {
        assert IsSignalling(s'.At(t));
      } else {
        ReachableInvariant(s);
        SignallerStays(s, s', t, i, c);
      }
    }
    hide Program, Reachable, NextPcs, NextOwners, NextEvents, IsSignalling, LocksMatch, Lifecycle, Handshake;
  }

  lemma SignallerStays(s: State, s': State, t: Thread, i: Instr, c: Choice)
    requires NoneForgotten(s) && s.vars.partnerUp && Exec(s, t, i, c) == Some(s') && Signals(s.At(t), i)
    requires WellTyped(s) && !i.SignalWaiter? && !IsWaiting(NextPc(s, i, c)) && SomeWaiter(s')
    ensures SomeSignaller(s')
  {
    Moves(s, t, i, c);
    var u: Thread :| IsWaiting(s'.At(u));
    var o := Other(s, i, c);
    hide Exec, NextPc;
    assert o.Some? ==> !s.Live(o.value.0.id);
    assert IsWaiting(s.At(u));
    var x: Thread :| IsSignalling(s.At(x));
    assert s'.At(x) == s.At(x);
  }

  lemma {:induction false} RunForgetsNone(run: seq<Label>)
    requires After(run).Some?
    ensures NoneForgotten(After(run).value)
  {
    if run != [] {
      var before, l := run[..|run| - 1], run[|run| - 1];
      RunForgetsNone(before);
      var s := After(before).value;
      assert Reachable(s);
      hide After, Reachable, Step, NoneForgotten;
      match l {
        case Run(t, c) => StepForgetsNone(s, t, c);
        case Signal(w, interrupts) => DeliverForgetsNone(s, w, interrupts);
      }
    }
  }

  lemma DeliverForgetsNone(s: State, w: nat, interrupts: bool)
    requires NoneForgotten(s) && Deliver(s, w, interrupts).Some?
    ensures NoneForgotten(Deliver(s, w, interrupts).value)
  {
    var s' := Deliver(s, w, interrupts).value;
    forall x: Thread ensures s'.At(x) == s.At(x) || (s.At(x) == Work(Poll) && s'.At(x) == Work(CheckDestroy)) {
    }
    hide Deliver;
    if s'.vars.partnerUp && SomeWaiter(s') {
      var u: Thread :| IsWaiting(s'.At(u));
      assert IsWaiting(s.At(u));
      var x: Thread :| IsSignalling(s.At(x));
      assert IsSignalling(s'.At(x));
    }
  }

  /** No wakeup is lost: in every reachable state, a thread that waits although a partner record has set mPartnerUp is
      about to be signalled, and a thread that is awake for that reason does not go back to waiting. */
  lemma NoLostWakeup(s: State, t: Thread)
    requires Reachable(s)
    ensures IsWaiting(s.At(t)) && s.vars.partnerUp ==> exists w: Thread :: w.Worker? && IsSignalling(s.At(w))
    ensures s.At(t).Switch? && s.At(t).s.StartWait? ==> !s.vars.partnerUp
  {
    var run :| After(run) == Some(s);
    RunForgetsNone(run);
    ReachableInvariant(s);
    if s.At(t).Switch? && s.At(t).s.StartWait? { WaitsOnlyUnset(s, t); }
    hide After, Reachable, Lifecycle, LocksMatch, Handshake;
    if IsWaiting(s.At(t)) && s.vars.partnerUp {
      var w: Thread :| IsSignalling(s.At(w));
      assert InWorker(s.At(w));
    }
  }

  // ---------- What is left to do ----------

  /** What is left to do at a point of switchRole. */
  function SwitchLeft(p: SwitchPc): nat {
    match p
    case LockRole(_, _) => 18
    case OpenPortType(_) => 17
    case LockPartner(_) => 16
    case ClearPartnerUp(_) => 15
    case WriteRole(_) => 14
    case SeeWrite(_) => 13
    case StartWait(_) => 12
    case Waiting(_) => 11
    case Waking(_, _) => 10
    case CheckPartnerUp(_, _) => 9
    case UnlockPartner(_, _) => 8
    case SwitchToDrp(_) => 7
    case ReturnMode(_, _) => 6
    case WriteRoleNode(_) => 5
    case LockToNotify(_) => 4
    case NotifySwitch(_) => 3
    case UnlockNotified(_) => 2
    case UnlockRole(_) => 1
  }

  function CallLeft(p: CallPc): nat {
    match p
    case LockSection(n) => 2 * n + 2
    case UnlockSection(n) => 2 * n + 1
    case LockToSet(_) => 6
    case SetCallback(_) => 5
    case KillWorker => 4
    case ClearDestroy => 4
    case JoinWorker => 3
    case CreateWorker => 3
    case UnlockSet => 1
  }

  /** The stage a worker is in, and what is left of it: records, then ports. */
  function WorkLeft(p: WorkPc): (nat, nat) {
    match p
    case OpenSocket => (6, 0)
    case Poll => (5, 0)
    case Scan(todo) => (4, 5 * |todo|)
    case LockPartnerToSet(todo) => (4, 5 * |todo| + 4)
    case SetPartnerUp(todo) => (4, 5 * |todo| + 3)
    case SignalPartner(todo) => (4, 5 * |todo| + 2)
    case UnlockPartnerSet(todo) => (4, 5 * |todo| + 1)
    case LockToQuery => (3, 2)
    case QueryPorts => (3, 1)
    case UnlockQuery(_) => (3, 0)
    case TryLockRole(ports) => (2, 2 * |ports| + 2)
    case RestoreDrp(ports) => (2, 2 * |ports| + 1)
    case WriteDual(_, ports) => (2, 2 * |ports| + 2)
    case UnlockRestored => (2, 0)
    case CheckDestroy => (1, 0)
  }

  function Left(pc: Pc): (nat, nat) {
    match pc
    case Switch(p) => (0, SwitchLeft(p))
    case Call(p) => (0, CallLeft(p))
    case Work(p) => WorkLeft(p)
    case Idle => (0, 0)
    case Ended => (0, 0)
  }

  predicate Below(x: (nat, nat), y: (nat, nat)) {
    x.0 < y.0 || (x.0 == y.0 && x.1 < y.1)
  }

  /** The two places where a thread goes back: a wakeup without a partner record, and the worker's loop. */
  predicate Retries(pc: Pc, v: Vars) {
    || (pc.Switch? && pc.s.CheckPartnerUp? && !pc.s.timedOut && !v.partnerUp)
    || (pc == Work(CheckDestroy) && !v.destroyThread)
  }

  lemma SwitchWindsDown(s: State, p: SwitchPc, c: Choice)
    ensures Below(Left(NextPc(s, SwitchProgram(p, c), c)), Left(Switch(p))) <==> !Retries(Switch(p), s.vars)
  {
  }

  lemma CallWindsDown(s: State, p: CallPc, c: Choice)
    ensures Below(Left(NextPc(s, CallProgram(p, c), c)), Left(Call(p)))
  {
  }

  lemma WorkWindsDown(s: State, p: WorkPc, c: Choice)
    ensures Below(Left(NextPc(s, WorkProgram(p, c), c)), Left(Work(p))) <==> !Retries(Work(p), s.vars)
  {
  }

  /** A step within a call or of a worker leaves its thread less to do, unless it is one of the two that go back. */
  lemma StepWindsDown(s: State, t: Thread, c: Choice)
    requires Step(s, t, c).Some? && s.At(t) != Idle
    ensures Below(Left(Step(s, t, c).value.At(t)), Left(s.At(t))) <==> !Retries(s.At(t), s.vars)
  {
    Moves(s, t, Program(s.At(t), c), c);
    match s.At(t) {
      case Switch(p) => SwitchWindsDown(s, p, c);
      case Call(p) => CallWindsDown(s, p, c);
      case Work(p) => WorkWindsDown(s, p, c);
      case Idle =>
      case Ended =>
    }
    hide SwitchProgram, CallProgram, WorkProgram, NextPc, NextPcs, Left, Below, Retries;
  }

  predicate NotAbove(pc: Pc, before: Pc) {
    pc == before || Below(Left(pc), Left(before))
  }

  predicate Exists(s: State, t: Thread) {
    t.Worker? ==> t.id < s.vars.created
  }

  predicate StepOf(l: Label, t: Thread) {
    l.Run? && l.t == t
  }

  /** The steps of others leave no existing thread more to do. */
  lemma OthersAddNothing(s: State, l: Label, t: Thread)
    requires Next(s, l).Some? && Exists(s, t)
    ensures Exists(Next(s, l).value, t) && (!StepOf(l, t) ==> NotAbove(Next(s, l).value.At(t), s.At(t)))
  {
    match l {
      case Run(u, c) =>
        Moves(s, u, Program(s.At(u), c), c);
        hide Program, NextPc, NextPcs, NextOwners, NextEvents;
      case Signal(w, interrupts) =>
    }
  }

  // ---------- Endless runs ----------

  /** A run without end. */
  ghost predicate IsRun(states: nat -> State, labels: nat -> Label) {
    Reachable(states(0)) && forall k: nat :: Next(states(k), labels(k)) == Some(states(k + 1))
  }

  /** Thread t takes no step from m on. */
  ghost predicate RestsFrom(labels: nat -> Label, t: Thread, m: nat) {
    forall k: nat :: k >= m ==> !StepOf(labels(k), t)
  }

  /** From n on thread t takes no step between calls and never goes back. */
  ghost predicate Winding(states: nat -> State, labels: nat -> Label, t: Thread, n: nat) {
    forall k: nat :: k >= n && StepOf(labels(k), t) ==>
      states(k).At(t) != Idle && !Retries(states(k).At(t), states(k).vars)
  }

  lemma {:induction false} NotAboveLater(states: nat -> State, labels: nat -> Label, t: Thread, n: nat, k: nat)
    requires IsRun(states, labels) && n <= k && Exists(states(n), t)
    requires forall j: nat :: n <= j < k ==> !StepOf(labels(j), t)
    ensures Exists(states(k), t) && (Left(states(k).At(t)) == Left(states(n).At(t)) || NotAbove(states(k).At(t), states(n).At(t)))
    decreases k
  {
    hide Left, Next, Exists, StepOf, Reachable;
    if n < k {
      NotAboveLater(states, labels, t, n, k - 1);
      assert Next(states(k - 1), labels(k - 1)) == Some(states(k - 1 + 1));
      OthersAddNothing(states(k - 1), labels(k - 1), t);
    }
  }

  /** In every endless run a thread that makes no new call and goes back only finitely often takes only finitely many
      steps. */
  lemma {:induction false} FinitelyManySteps(states: nat -> State, labels: nat -> Label, t: Thread, n: nat)
    requires IsRun(states, labels) && Winding(states, labels, t, n) && Exists(states(n), t)
    ensures exists m: nat :: RestsFrom(labels, t, m)
    decreases Left(states(n).At(t)).0, Left(states(n).At(t)).1
  {
    hide Left, Next, Exists, Reachable, Retries;
    if !RestsFrom(labels, t, n) {
      var k := FirstStep(labels, t, n);
      NotAboveLater(states, labels, t, n, k);
      assert Next(states(k), labels(k)) == Some(states(k + 1));
      StepOfWindsDown(states(k), labels(k), t);
      FinitelyManySteps(states, labels, t, k + 1);
    }
  }

  lemma StepOfWindsDown(s: State, l: Label, t: Thread)
    requires Next(s, l).Some? && StepOf(l, t) && s.At(t) != Idle && !Retries(s.At(t), s.vars) && Exists(s, t)
    ensures Exists(Next(s, l).value, t) && Below(Left(Next(s, l).value.At(t)), Left(s.At(t)))
  {
    StepWindsDown(s, t, l.c);
    OthersAddNothing(s, l, t);
    hide Step, Left;
  }

  lemma {:induction false} FirstStep(labels: nat -> Label, t: Thread, n: nat) returns (k: nat)
    requires !RestsFrom(labels, t, n)
    ensures k >= n && StepOf(labels(k), t) && forall j: nat :: n <= j < k ==> !StepOf(labels(j), t)
  {
    var some: nat :| some >= n && StepOf(labels(some), t);
    k := n;
    while !StepOf(labels(k), t)
      invariant n <= k <= some
      invariant forall j: nat :: n <= j < k ==> !StepOf(labels(j), t)
      decreases some - k
    {
      k := k + 1;
    }
  }

  lemma {:induction false} ReachableLater(states: nat -> State, labels: nat -> Label, k: nat)
    requires IsRun(states, labels)
    ensures Reachable(states(k))
  {
    if k > 0 {
      ReachableLater(states, labels, k - 1);
      assert Next(states(k - 1), labels(k - 1)) == Some(states(k - 1 + 1));
      ReachesNext(states(k - 1), labels(k - 1));
    }
    hide Next, Reachable;
  }

  lemma ReachesNext(s: State, l: Label)
    requires Reachable(s) && Next(s, l).Some?
    ensures Reachable(Next(s, l).value)
  {
    var run :| After(run) == Some(s);
    assert (run + [l])[..|run|] == run;
    assert After(run + [l]) == Next(s, l);
    hide Next;
  }

  /** destroyThread stays set as long as a worker lives. */
  lemma {:induction false} StaysTold(states: nat -> State, labels: nat -> Label, w: nat, n: nat, k: nat)
    requires IsRun(states, labels) && n <= k && states(n).vars.destroyThread && Exists(states(n), Worker(w))
    ensures Exists(states(k), Worker(w)) && (states(k).vars.destroyThread || !states(k).Live(w))
    decreases k
  {
    if n < k {
      StaysTold(states, labels, w, n, k - 1);
      assert Next(states(k - 1), labels(k - 1)) == Some(states(k - 1 + 1));
      ReachableLater(states, labels, k - 1);
      StaysToldStep(states(k - 1), labels(k - 1), w);
    }
    hide Next, Reachable, Exists;
  }

  lemma StaysToldStep(s: State, l: Label, w: nat)
    requires Reachable(s) && Next(s, l).Some? && Exists(s, Worker(w)) && (s.vars.destroyThread || !s.Live(w))
    ensures var s' := Next(s, l).value; Exists(s', Worker(w)) && (s'.vars.destroyThread || !s'.Live(w))
  {
    OthersAddNothing(s, l, Worker(w));
    ClearedWhileNoneLive(s, l);
    if s.At(Worker(w)) == Ended && StepOf(l, Worker(w)) { EndedStops(l.c); }
    hide Next, Reachable;
    assert !s.Live(w) ==> !Next(s, l).value.Live(w);
  }

  /** A worker that has been told to end takes only finitely many more steps in every endless run, whatever it receives
      and whatever the others do. It may have ended then, or wait. */
  lemma ToldWorkerRests(states: nat -> State, labels: nat -> Label, w: nat, n: nat)
    requires IsRun(states, labels) && states(n).vars.destroyThread && states(n).Live(w)
    ensures exists m: nat :: RestsFrom(labels, Worker(w), m)
  {
    ReachableLater(states, labels, n);
    ReachableInvariant(states(n));
    assert Exists(states(n), Worker(w));
    hide Next, Reachable, Lifecycle, LocksMatch, Handshake, Exists;
    forall k: nat | k >= n && StepOf(labels(k), Worker(w))
      ensures states(k).At(Worker(w)) != Idle && !Retries(states(k).At(Worker(w)), states(k).vars)
    {
      StaysTold(states, labels, w, n, k);
      ReachableLater(states, labels, k);
      WorkerStepsTold(states, labels, w, k);
    }
    FinitelyManySteps(states, labels, Worker(w), n);
  }

  lemma WorkerStepsTold(states: nat -> State, labels: nat -> Label, w: nat, k: nat)
    requires IsRun(states, labels) && StepOf(labels(k), Worker(w)) && Reachable(states(k))
    requires states(k).vars.destroyThread || !states(k).Live(w)
    ensures states(k).At(Worker(w)) != Idle && !Retries(states(k).At(Worker(w)), states(k).vars)
  {
    var s := states(k);
    ReachableInvariant(s);
    assert InWorker(s.At(Worker(w)));
    assert Next(states(k), labels(k)) == Some(states(k + 1));
    EndedStops(labels(k).c);
    hide Reachable, Lifecycle, LocksMatch, Handshake, WellTyped;
  }
}
