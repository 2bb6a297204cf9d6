/** Fair runs: locks are freed, and a worker told to end does end unless it is embraced or waits for a uevent
    (usb/usb/Usb.cpp:714-825, 836-871). */
module UsbFairness {
  import opened Wrappers
  import opened UsbProtocol
  import opened UsbInvariants
  import opened UsbLifecycle
  import opened UsbHandshake
  import opened UsbReachable
  import opened UsbProgress
  import opened UsbDeadlock
  import opened UsbParked

  // ---------- Fair runs ----------

  /** A thread can go on, and it is up to the scheduler that it does: not to a caller or to the kernel's uevents. */
  ghost predicate Ready(s: State, t: Thread) {
    CanGo(s, t) && !Awaits(s.At(t))
  }

  ghost predicate ReadyLater(states: nat -> State, t: Thread, n: nat) {
    exists j: nat :: j >= n && Ready(states(j), t)
  }

  ghost predicate ReadyOften(states: nat -> State, t: Thread) {
    forall n: nat :: ReadyLater(states, t, n)
  }

  ghost predicate EventuallyRests(labels: nat -> Label, t: Thread) {
    exists m: nat :: RestsFrom(labels, t, m)
  }

  /** A thread that is ready infinitely often also steps infinitely often. Idle threads and workers in epoll_wait need
      never step. */
  ghost predicate Fair(states: nat -> State, labels: nat -> Label) {
    forall t: Thread :: ReadyOften(states, t) ==> !EventuallyRests(labels, t)
  }

  lemma StepsIfReady(states: nat -> State, labels: nat -> Label, t: Thread, n: nat)
    requires Fair(states, labels)
    requires forall m: nat :: m >= n ==> ReadyLater(states, t, m)
    ensures !RestsFrom(labels, t, n)
  {
    hide RestsFrom, Ready;
    forall m: nat ensures ReadyLater(states, t, m) {
      var q := if m < n then n else m;
      assert ReadyLater(states, t, q);
    }
    assert !EventuallyRests(labels, t);
  }

  lemma RestsLater(labels: nat -> Label, t: Thread, n: nat, q: nat)
    requires RestsFrom(labels, t, n) && n <= q
    ensures RestsFrom(labels, t, q)
  {
  }

  // ---------- Locks are dropped ----------

  /** How many steps a holder of mPartnerLock or mLock is from dropping it. */
  function HoldLeft(pc: Pc): nat {
    match pc
    case Switch(p) =>
      if p.ClearPartnerUp? then 4 else if p.WriteRole? then 3
      else if p.SeeWrite? || p.CheckPartnerUp? || p.NotifySwitch? then 2
      else if p.StartWait? || p.UnlockPartner? || p.UnlockNotified? then 1 else 0
    case Call(p) =>
      if p.SetCallback? then 4 else if p.KillWorker? || p.ClearDestroy? then 3
      else if p.JoinWorker? || p.CreateWorker? then 2 else if p.UnlockSet? || p.UnlockSection? then 1 else 0
    case Work(p) =>
      if p.SetPartnerUp? then 3 else if p.SignalPartner? || p.QueryPorts? then 2
      else if p.UnlockPartnerSet? || p.UnlockQuery? then 1 else 0
    case _ => 0
  }

  predicate Releases(pc: Pc, i: Instr, l: Lock) {
    l != RoleSwitchLock && Holds(pc, l) ==>
      && (Drops(i, l) || (!i.Stop? && HoldLeft(i.next) < HoldLeft(pc)))
      && (Branches(i) ==> !Drops(i, l) && HoldLeft(i.otherwise) < HoldLeft(pc))
  }

  lemma SwitchReleases(p: SwitchPc, c: Choice, l: Lock)
    ensures Releases(Switch(p), SwitchProgram(p, c), l)
  {
  }

  lemma CallReleases(p: CallPc, c: Choice, l: Lock)
    ensures Releases(Call(p), CallProgram(p, c), l)
  {
  }

  lemma WorkReleases(p: WorkPc, c: Choice, l: Lock)
    ensures Releases(Work(p), WorkProgram(p, c), l)
  {
  }

  lemma ProgramReleases(pc: Pc, c: Choice, l: Lock)
    ensures Releases(pc, Program(pc, c), l)
  {
    match pc {
      case Switch(p) => SwitchReleases(p, c, l);
      case Call(p) => CallReleases(p, c, l);
      case Work(p) => WorkReleases(p, c, l);
      case Idle =>
      case Ended =>
    }
    hide SwitchProgram, CallProgram, WorkProgram;
  }

  ghost predicate Owns(s: State, u: Thread, l: Lock) {
    l in s.owners && s.owners[l] == u
  }

  /** A step of a holder drops the lock or comes closer to that. */
  lemma HolderSteps(s: State, u: Thread, c: Choice, l: Lock)
    requires Invariant(s) && Owns(s, u, l) && l != RoleSwitchLock && Step(s, u, c).Some?
    ensures var s' := Step(s, u, c).value;
            l !in s'.owners || (Owns(s', u, l) && HoldLeft(s'.At(u)) < HoldLeft(s.At(u)))
  {
    hide Lifecycle, Handshake, WellTyped;
    var i := Program(s.At(u), c);
    assert Holds(s.At(u), l);
    ProgramReleases(s.At(u), c, l);
    Accounts(s.At(u), c, l);
    Moves(s, u, i, c);
    hide Program, Holds, HoldLeft, NextPcs, NextVars, NextEvents, LocksMatch;
  }

  // ---------- While a thread rests ----------

  /** Where the steps of others can take a thread: out of a wait, or out of epoll_wait by a signal. */
  predicate Drifts(before: Pc, after: Pc) {
    || after == before
    || (IsWaiting(before) && after == Switch(Waking(before.s.port, false)))
    || (before == Work(Poll) && after == Work(CheckDestroy))
  }

  lemma OthersMove(s: State, label_: Label, t: Thread)
    requires Next(s, label_).Some? && Exists(s, t) && !StepOf(label_, t)
    ensures var s' := Next(s, label_).value; Exists(s', t) && Drifts(s.At(t), s'.At(t))
  {
    OthersAddNothing(s, label_, t);
    match label_ {
      case Run(u, c) =>
        Moves(s, u, Program(s.At(u), c), c);
        hide Program, NextPc, NextPcs, NextVars, NextEvents, NextOwners, NotAbove;
      case Signal(_, _) =>
    }
  }

  /** No step of another thread takes a lock from its holder. */
  lemma OwnerStays(s: State, label_: Label, u: Thread, l: Lock)
    requires Invariant(s) && Owns(s, u, l) && Next(s, label_).Some? && !StepOf(label_, u)
    ensures Owns(Next(s, label_).value, u, l)
  {
    hide Lifecycle, Handshake, WellTyped;
    match label_ {
      case Run(t, c) =>
        assert Holds(s.At(u), l);
        Exclusive(s, t, u, l);
        Accounts(s.At(t), c, l);
        hide Program, NextPc, NextPcs, NextVars, NextEvents, LocksMatch, Holds;
      case Signal(_, _) =>
    }
  }

  /** What remains of a thread that takes no step from n to k. */
  lemma {:induction false} RestsUntil(states: nat -> State, labels: nat -> Label, t: Thread, n: nat, k: nat)
    requires IsRun(states, labels) && n <= k && Exists(states(n), t)
    requires forall j: nat :: n <= j < k ==> !StepOf(labels(j), t)
    ensures Exists(states(k), t) && Drifts(states(n).At(t), states(k).At(t))
    ensures forall l: Lock :: Owns(states(n), t, l) ==> Owns(states(k), t, l)
    decreases k
  {
    hide Next, Reachable, StepOf, Owns, Invariant, Exists;
    if n < k {
      RestsUntil(states, labels, t, n, k - 1);
      assert Next(states(k - 1), labels(k - 1)) == Some(states(k - 1 + 1));
      ReachableLater(states, labels, k - 1);
      ReachableInvariant(states(k - 1));
      OthersMove(states(k - 1), labels(k - 1), t);
      forall l: Lock | Owns(states(n), t, l) ensures Owns(states(k), t, l) {
        OwnerStays(states(k - 1), labels(k - 1), t, l);
      }
    }
  }

  lemma {:induction false} NeverUncreated(states: nat -> State, labels: nat -> Label, t: Thread, n: nat)
    requires IsRun(states, labels) && states(n).At(t) != Ended
    ensures Invariant(states(n)) && Exists(states(n), t)
  {
    ReachableLater(states, labels, n);
    ReachableInvariant(states(n));
    hide Reachable, Next, Lifecycle, Handshake, LocksMatch;
    if t.Worker? { assert states(n).Live(t.id); }
  }

  /** A thread at a point where it waits for nothing cannot rest. */
  lemma FreeNeverRests(states: nat -> State, labels: nat -> Label, t: Thread, n: nat)
    requires IsRun(states, labels) && Fair(states, labels)
    requires var pc := states(n).At(t);
             Wants(pc) == None && pc != Call(JoinWorker) && !IsWaiting(pc) && !Awaits(pc) && pc != Ended
    ensures !RestsFrom(labels, t, n)
  {
    NeverUncreated(states, labels, t, n);
    hide IsRun, Fair, CanGo, Wants, Invariant, Exists, StepOf;
    if RestsFrom(labels, t, n) {
      forall m: nat | m >= n ensures ReadyLater(states, t, m) {
        RestsUntil(states, labels, t, n, m);
        GoesUnlessItWaits(states(m), t);
        assert Ready(states(m), t);
      }
      StepsIfReady(states, labels, t, n);
    }
  }

  // ---------- mPartnerLock and mLock are freed ----------

  /** From n on no holder of the lock rests for ever. */
  ghost predicate HoldersStep(states: nat -> State, labels: nat -> Label, l: Lock, n: nat) {
    forall k: nat, u: Thread :: k >= n && Owns(states(k), u, l) ==> !RestsFrom(labels, u, k)
  }

  lemma HolderNext(s: State, label_: Label, u: Thread, l: Lock)
    requires Invariant(s) && Owns(s, u, l) && l != RoleSwitchLock && Next(s, label_).Some? && StepOf(label_, u)
    ensures var s' := Next(s, label_).value;
            l !in s'.owners || (Owns(s', u, l) && HoldLeft(s'.At(u)) < HoldLeft(s.At(u)))
  {
    HolderSteps(s, u, label_.c, l);
    hide Step, Invariant, HoldLeft;
  }

  lemma HolderIsThere(s: State, u: Thread, l: Lock)
    requires Invariant(s) && Owns(s, u, l) && l != RoleSwitchLock
    ensures var pc := s.At(u);
            Holds(pc, l) && pc != Ended && !Awaits(pc) && Wants(pc) == None && !IsWaiting(pc)
  {
    hide Lifecycle, Handshake, WellTyped;
    HoldsWithoutWanting(s.At(u), l);
  }

  lemma HoldsWithoutWanting(pc: Pc, l: Lock)
    requires Holds(pc, l) && l != RoleSwitchLock
    ensures Wants(pc) == None && pc != Ended && !Awaits(pc) && !IsWaiting(pc)
    ensures pc == Call(JoinWorker) ==> l == CallbackLock
  {
  }

  /** In a run in which its holders do not rest, mPartnerLock or mLock is always free again later. */
  lemma {:induction false} LockIsFreed(states: nat -> State, labels: nat -> Label, l: Lock, n: nat)
    requires IsRun(states, labels) && HoldersStep(states, labels, l, n) && l != RoleSwitchLock
    ensures exists k: nat :: k >= n && l !in states(k).owners
    decreases if l in states(n).owners then HoldLeft(states(n).At(states(n).owners[l])) + 1 else 0
  {
    hide HoldLeft, Reachable, Next, Invariant, Exists, Wants;
    if l in states(n).owners {
      var u := states(n).owners[l];
      assert Owns(states(n), u, l);
      ReachableLater(states, labels, n);
      ReachableInvariant(states(n));
      HolderIsThere(states(n), u, l);
      NeverUncreated(states, labels, u, n);
      var k := FirstStep(labels, u, n);
      RestsUntil(states, labels, u, n, k);
      assert Next(states(k), labels(k)) == Some(states(k + 1));
      ReachableLater(states, labels, k);
      ReachableInvariant(states(k));
      HolderNext(states(k), labels(k), u, l);
      if l in states(k + 1).owners {
        LockIsFreed(states, labels, l, k + 1);
      }
    }
  }

  /** A thread that wants a lock that is always free again later cannot rest. */
  lemma WanterNeverRests(states: nat -> State, labels: nat -> Label, t: Thread, l: Lock, n: nat)
    requires IsRun(states, labels) && Fair(states, labels) && Wants(states(n).At(t)) == Some(l)
    requires forall m: nat :: m >= n ==> FreeLater(states, l, m)
    ensures !RestsFrom(labels, t, n)
  {
    assert states(n).At(t) != Ended && !IsWaiting(states(n).At(t)) && !Awaits(states(n).At(t));
    NeverUncreated(states, labels, t, n);
    hide IsRun, Fair, CanGo, Wants, Invariant, Exists, StepOf;
    if RestsFrom(labels, t, n) {
      forall m: nat | m >= n ensures ReadyLater(states, t, m) {
        assert FreeLater(states, l, m);
        var k: nat :| k >= m && l !in states(k).owners;
        RestsUntil(states, labels, t, n, k);
        GoesUnlessItWaits(states(k), t);
        assert Ready(states(k), t);
      }
      StepsIfReady(states, labels, t, n);
    }
  }

  ghost predicate FreeLater(states: nat -> State, l: Lock, n: nat) {
    exists k: nat :: k >= n && l !in states(k).owners
  }

  // ---------- The worker ends ----------

  predicate Done(s: State, w: nat) {
    !s.Live(w) || Embrace(s)
  }

  /** A worker is in epoll_wait and stays there for good. */
  ghost predicate PollsForGood(states: nat -> State, labels: nat -> Label, w: nat, n: nat) {
    RestsFrom(labels, Worker(w), n) && forall k: nat :: k >= n ==> states(k).At(Worker(w)) == Work(Poll)
  }

  lemma WorkerWants(pc: Pc, l: Lock)
    requires InWorker(pc) && Wants(pc) == Some(l)
    ensures l != RoleSwitchLock && (l == CallbackLock ==> pc == Work(LockToQuery))
  {
  }

  /** Without an embrace the holder of a lock that a live worker wants waits for nothing. */
  lemma HolderIsFree(s: State, w: nat, l: Lock, u: Thread)
    requires Invariant(s) && s.Live(w) && Wants(s.At(Worker(w))) == Some(l) && Owns(s, u, l) && !Embrace(s)
    ensures l != RoleSwitchLock && s.At(u) != Call(JoinWorker)
  {
    hide Handshake, LocksMatch;
    assert InWorker(s.At(Worker(w)));
    WorkerWants(s.At(Worker(w)), l);
    HolderIsThere(s, u, l);
    HoldsWithoutWanting(s.At(u), l);
    assert s.vars.poll == Some(w);
    hide Wants, Holds, WellTyped, Lifecycle;
  }

  lemma WantedHolderSteps(states: nat -> State, labels: nat -> Label, w: nat, l: Lock, n: nat)
    requires IsRun(states, labels) && Fair(states, labels) && RestsFrom(labels, Worker(w), n)
    requires Exists(states(n), Worker(w)) && Wants(states(n).At(Worker(w))) == Some(l) && l != RoleSwitchLock
    requires forall k: nat :: k >= n ==> !Done(states(k), w)
    ensures HoldersStep(states, labels, l, n)
  {
    assert !IsWaiting(states(n).At(Worker(w))) && states(n).At(Worker(w)) != Work(Poll);
    hide IsRun, Fair, Embrace, Wants, Reachable, Invariant, Owns, Exists;
    forall k: nat, u: Thread | k >= n && Owns(states(k), u, l) ensures !RestsFrom(labels, u, k) {
      assert !Done(states(k), w);
      ReachableLater(states, labels, k);
      ReachableInvariant(states(k));
      RestsUntil(states, labels, Worker(w), n, k);
      HolderIsFree(states(k), w, l, u);
      HolderIsThere(states(k), u, l);
      FreeNeverRests(states, labels, u, k);
    }
  }

  /** A worker that rests in a fair run has ended, is embraced, or is in epoll_wait for good. */
  lemma RestingWorkerIsDone(states: nat -> State, labels: nat -> Label, w: nat, n: nat)
    requires IsRun(states, labels) && Fair(states, labels) && RestsFrom(labels, Worker(w), n)
    ensures exists k: nat :: k >= n && (Done(states(k), w) || PollsForGood(states, labels, w, k))
  {
    hide IsRun, Fair, Done, RestsFrom;
    if k: nat :| k >= n && Done(states(k), w) {
    } else if q: nat :| q >= n && states(q).At(Worker(w)) != Work(Poll) {
      RestsLater(labels, Worker(w), n, q);
      WorkerNeverRests(states, labels, w, q);
    } else {
      assert PollsForGood(states, labels, w, n);
    }
  }

  /** Outside epoll_wait a live worker that is not embraced cannot rest. */
  lemma WorkerNeverRests(states: nat -> State, labels: nat -> Label, w: nat, n: nat)
    requires IsRun(states, labels) && Fair(states, labels) && states(n).At(Worker(w)) != Work(Poll)
    requires forall k: nat :: k >= n ==> !Done(states(k), w)
    ensures !RestsFrom(labels, Worker(w), n)
  {
    var s, t := states(n), Worker(w);
    assert !Done(s, w);
    NeverUncreated(states, labels, t, n);
    WorkerPoint(s, w);
    hide IsRun, Fair, Done, RestsFrom, Wants, Invariant, Exists;
    if Wants(s.At(t)) == None {
      FreeNeverRests(states, labels, t, n);
    } else if RestsFrom(labels, t, n) {
      var l := Wants(s.At(t)).value;
      forall m: nat | m >= n ensures FreeLater(states, l, m) {
        WantedHolderSteps(states, labels, w, l, n);
        assert HoldersStep(states, labels, l, m);
        LockIsFreed(states, labels, l, m);
      }
      WanterNeverRests(states, labels, t, l, n);
    }
  }

  lemma WorkerPoint(s: State, w: nat)
    requires Invariant(s) && s.Live(w)
    ensures var pc := s.At(Worker(w));
            pc != Ended && pc != Call(JoinWorker) && !IsWaiting(pc) && pc != Idle && Wants(pc) != Some(RoleSwitchLock)
  {
    hide Lifecycle, Handshake, LocksMatch;
    assert InWorker(s.At(Worker(w)));
  }

  /** In every fair endless run a worker that has been told to end ends, or the run reaches an embrace, or the worker is in
      epoll_wait for good. */
  lemma ToldWorkerEnds(states: nat -> State, labels: nat -> Label, w: nat, n: nat)
    requires IsRun(states, labels) && Fair(states, labels) && states(n).vars.destroyThread && states(n).Live(w)
    ensures exists k: nat :: k >= n && (Done(states(k), w) || PollsForGood(states, labels, w, k))
  {
    hide IsRun, Fair, Done, RestsFrom, PollsForGood;
    ToldWorkerRests(states, labels, w, n);
    var m: nat :| RestsFrom(labels, Worker(w), m);
    var q := if m < n then n else m;
    RestsLater(labels, Worker(w), m, q);
    RestingWorkerIsDone(states, labels, w, q);
  }
}
