/** Every call returns: in a fair run that reaches neither an embrace nor a parked worker, and whose mode switches are
    woken in vain only finitely often (usb/usb/Usb.cpp:104-207, 314-445, 648-707, 836-871). */
module UsbLiveness {
  import opened Wrappers
  import opened UsbProtocol
  import opened UsbInvariants
  import opened UsbLifecycle
  import opened UsbHandshake
  import opened UsbReachable
  import opened UsbRuns
  import opened UsbProgress
  import opened UsbDeadlock
  import opened UsbParked
  import opened UsbFairness

  /** No signal stays pending for ever for a live worker. */
  ghost predicate Delivered(states: nat -> State) {
    forall w: nat, n: nat :: NotPendingLater(states, w, n)
  }

  ghost predicate NotPendingLater(states: nat -> State, w: nat, n: nat) {
    exists k: nat :: k >= n && !(states(k).Live(w) && w in states(k).vars.signalled)
  }

  predicate Hung(s: State) {
    Embrace(s) || Parked(s)
  }

  ghost predicate Unhung(states: nat -> State, n: nat) {
    forall k: nat :: k >= n ==> !Hung(states(k))
  }

  /** The scheduler is fair, signals are delivered, and from n on nothing hangs. */
  ghost predicate Healthy(states: nat -> State, labels: nat -> Label, n: nat) {
    IsRun(states, labels) && Fair(states, labels) && Delivered(states) && Unhung(states, n)
  }

  lemma HealthyLater(states: nat -> State, labels: nat -> Label, n: nat, k: nat)
    requires Healthy(states, labels, n) && k >= n
    ensures Healthy(states, labels, k)
  {
    hide IsRun, Fair, Delivered, Hung;
  }

  // ---------- The join of setCallback(NULL) ----------

  /** While it joins, nothing but mPartnerUp changes among the variables, unless a signal is delivered. */
  lemma JoinLasts(s: State, label_: Label, t: Thread)
    requires Invariant(s) && s.At(t) == Call(JoinWorker) && Next(s, label_).Some? && !StepOf(label_, t)
    ensures var s' := Next(s, label_).value;
            && s'.vars.poll == s.vars.poll && s'.vars.signalled <= s.vars.signalled
            && (s.vars.destroyThread ==> s'.vars.destroyThread)
  {
    OneJoiner(s, t);
    match label_ {
      case Run(u, c) =>
        assert Holds(s.At(t), CallbackLock);
        Exclusive(s, t, u, CallbackLock);
        LifeSteps(s.At(u), c);
        assert !TouchesLife(Program(s.At(u), c));
        QuietStep(s, u, c);
        hide Step, Program, LocksMatch, WellTyped, Lifecycle, Handshake, Holds, TouchesLife, PhaseOf;
      case Signal(_, _) =>
    }
  }

  lemma {:induction false} JoinLastsUntil(states: nat -> State, labels: nat -> Label, t: Thread, n: nat, k: nat)
    requires IsRun(states, labels) && RestsFrom(labels, t, n) && n <= k && states(n).At(t) == Call(JoinWorker)
    ensures states(k).At(t) == Call(JoinWorker)
    ensures var v, v' := states(n).vars, states(k).vars;
            v'.poll == v.poll && v'.signalled <= v.signalled && (v.destroyThread ==> v'.destroyThread)
    decreases k
  {
    hide IsRun, RestsFrom;
    if n < k {
      JoinLastsUntil(states, labels, t, n, k - 1);
      RestsLater(labels, t, n, k - 1);
      JoinLastsOneMore(states, labels, t, k - 1);
    }
  }

  lemma JoinLastsOneMore(states: nat -> State, labels: nat -> Label, t: Thread, k: nat)
    requires IsRun(states, labels) && RestsFrom(labels, t, k) && states(k).At(t) == Call(JoinWorker)
    ensures states(k + 1).At(t) == Call(JoinWorker)
    ensures var v, v' := states(k).vars, states(k + 1).vars;
            v'.poll == v.poll && v'.signalled <= v.signalled && (v.destroyThread ==> v'.destroyThread)
  {
    hide Next, Reachable, StepOf, Invariant, Exists;
    assert !StepOf(labels(k), t);
    assert Next(states(k), labels(k)) == Some(states(k + 1));
    NeverUncreated(states, labels, t, k);
    JoinLasts(states(k), labels(k), t);
    OthersMove(states(k), labels(k), t);
  }

  /** What holds of the worker that is joined. */
  lemma JoinedWorker(s: State, t: Thread)
    requires Invariant(s) && s.At(t) == Call(JoinWorker)
    ensures s.vars.poll.Some?
    ensures var w := s.vars.poll.value;
            && (s.Live(w) ==> s.vars.destroyThread || w in s.vars.signalled)
            && (s.At(Worker(w)) == Work(Poll) && s.vars.destroyThread && w !in s.vars.signalled ==> Hung(s))
            && (!s.Live(w) ==> Ready(s, t))
  {
    OneJoiner(s, t);
    GoesUnlessItWaits(s, t);
    assert PhaseOf(s) == Joining;
    hide CanGo, LocksMatch, WellTyped, Handshake;
  }

  lemma {:induction false} StaysEnded(states: nat -> State, labels: nat -> Label, w: nat, n: nat, k: nat)
    requires IsRun(states, labels) && n <= k && Exists(states(n), Worker(w)) && !states(n).Live(w)
    ensures Exists(states(k), Worker(w)) && !states(k).Live(w)
    decreases k
  {
    hide Next, Reachable, Exists;
    if n < k {
      StaysEnded(states, labels, w, n, k - 1);
      assert Next(states(k - 1), labels(k - 1)) == Some(states(k - 1 + 1));
      StaysEndedStep(states(k - 1), labels(k - 1), w);
    }
  }

  lemma StaysEndedStep(s: State, label_: Label, w: nat)
    requires Next(s, label_).Some? && Exists(s, Worker(w)) && !s.Live(w)
    ensures Exists(Next(s, label_).value, Worker(w)) && !Next(s, label_).value.Live(w)
  {
    if StepOf(label_, Worker(w)) { EndedStops(label_.c); }
    OthersAddNothing(s, label_, Worker(w));
    if !StepOf(label_, Worker(w)) { OthersMove(s, label_, Worker(w)); }
    hide Step, Deliver;
  }

  lemma PollExists(s: State)
    requires Invariant(s) && s.vars.poll.Some?
    ensures Exists(s, Worker(s.vars.poll.value))
  {
    hide Handshake, LocksMatch, WellTyped, PhaseOf;
  }

  /** Once the joined worker has ended, the join cannot rest. */
  lemma JoinOfEnded(states: nat -> State, labels: nat -> Label, t: Thread, n: nat)
    requires IsRun(states, labels) && Fair(states, labels) && states(n).At(t) == Call(JoinWorker)
    requires states(n).vars.poll.Some? && !states(n).Live(states(n).vars.poll.value)
    ensures !RestsFrom(labels, t, n)
  {
    var w := states(n).vars.poll.value;
    ReachableLater(states, labels, n);
    ReachableInvariant(states(n));
    PollExists(states(n));
    hide IsRun, Fair, Ready, Invariant, Exists, StepOf, Reachable;
    if RestsFrom(labels, t, n) {
      forall m: nat | m >= n ensures ReadyLater(states, t, m) {
        JoinLastsUntil(states, labels, t, n, m);
        StaysEnded(states, labels, w, n, m);
        ReachableLater(states, labels, m);
        ReachableInvariant(states(m));
        JoinedWorker(states(m), t);
        assert Ready(states(m), t);
      }
      StepsIfReady(states, labels, t, n);
    }
  }

  /** setCallback(NULL) gets its worker joined, unless it hangs. */
  lemma JoinReturns(states: nat -> State, labels: nat -> Label, t: Thread, n: nat)
    requires Healthy(states, labels, n) && states(n).At(t) == Call(JoinWorker)
    ensures !RestsFrom(labels, t, n)
  {
    ReachableLater(states, labels, n);
    ReachableInvariant(states(n));
    JoinedWorker(states(n), t);
    var w := states(n).vars.poll.value;
    hide IsRun, Fair, Hung, Ready, Invariant, RestsFrom, Reachable, Done, PollsForGood;
    if RestsFrom(labels, t, n) {
      if k: nat :| k >= n && !states(k).Live(w) {
        JoinLastsUntil(states, labels, t, n, k);
        RestsLater(labels, t, n, k);
        JoinOfEnded(states, labels, t, k);
      } else {
        LiveWorkerHangs(states, labels, t, n, w);
      }
    }
  }

  /** A live worker that is joined for ever hangs. */
  lemma LiveWorkerHangs(states: nat -> State, labels: nat -> Label, t: Thread, n: nat, w: nat)
    requires IsRun(states, labels) && Fair(states, labels) && Delivered(states) && RestsFrom(labels, t, n)
    requires states(n).At(t) == Call(JoinWorker) && states(n).vars.poll == Some(w)
    requires forall k: nat :: k >= n ==> states(k).Live(w)
    ensures exists k: nat :: k >= n && Hung(states(k))
  {
    hide IsRun, Fair, Hung, Ready, Invariant, Reachable;
    assert NotPendingLater(states, w, n);
    var k: nat :| k >= n && !(states(k).Live(w) && w in states(k).vars.signalled);
    JoinLastsUntil(states, labels, t, n, k);
    RestsLater(labels, t, n, k);
    ReachableLater(states, labels, k);
    ReachableInvariant(states(k));
    JoinedWorker(states(k), t);
    ToldWorkerEnds(states, labels, w, k);
    var j: nat :| j >= k && (Done(states(j), w) || PollsForGood(states, labels, w, j));
    JoinLastsUntil(states, labels, t, k, j);
    ReachableLater(states, labels, j);
    ReachableInvariant(states(j));
    JoinedWorker(states(j), t);
    assert Hung(states(j)) by { HungAt(states, labels, w, j); }
  }

  lemma HungAt(states: nat -> State, labels: nat -> Label, w: nat, j: nat)
    requires states(j).Live(w) && (Done(states(j), w) || PollsForGood(states, labels, w, j))
    requires states(j).At(Worker(w)) == Work(Poll) ==> Hung(states(j))
    ensures Hung(states(j))
  {
    hide Embrace, Parked;
    if Done(states(j), w) { assert Embrace(states(j)); }
  }

  // ---------- No thread rests where it waits for less than mRoleSwitchLock ----------

  /** A holder of mPartnerLock or mLock does not rest. */
  lemma HolderNeverRests(states: nat -> State, labels: nat -> Label, u: Thread, l: Lock, n: nat)
    requires Healthy(states, labels, n) && Owns(states(n), u, l) && l != RoleSwitchLock
    ensures !RestsFrom(labels, u, n)
  {
    ReachableLater(states, labels, n);
    ReachableInvariant(states(n));
    HolderIsThere(states(n), u, l);
    hide IsRun, Fair, Hung, Invariant, RestsFrom, Reachable, Wants, Holds;
    if states(n).At(u) == Call(JoinWorker) {
      JoinReturns(states, labels, u, n);
    } else {
      FreeNeverRests(states, labels, u, n);
    }
  }

  /** So these two locks are always free again later. */
  lemma FreedAgain(states: nat -> State, labels: nat -> Label, l: Lock, n: nat)
    requires Healthy(states, labels, n) && l != RoleSwitchLock
    ensures FreeLater(states, l, n)
  {
    hide IsRun, Fair, Delivered, Unhung, RestsFrom, Owns;
    forall k: nat, u: Thread | k >= n && Owns(states(k), u, l) ensures !RestsFrom(labels, u, k) {
      HealthyLater(states, labels, n, k);
      HolderNeverRests(states, labels, u, l, k);
    }
    LockIsFreed(states, labels, l, n);
  }

  lemma PlainWanterNeverRests(states: nat -> State, labels: nat -> Label, t: Thread, n: nat)
    requires Healthy(states, labels, n) && Wants(states(n).At(t)).Some? && Wants(states(n).At(t)) != Some(RoleSwitchLock)
    ensures !RestsFrom(labels, t, n)
  {
    var l := Wants(states(n).At(t)).value;
    hide IsRun, Fair, Delivered, Unhung, RestsFrom, Wants, FreeLater;
    forall m: nat | m >= n ensures FreeLater(states, l, m) {
      HealthyLater(states, labels, n, m);
      FreedAgain(states, labels, l, m);
    }
    WanterNeverRests(states, labels, t, l, n);
  }

  /** A thread that waits for a partner times out or is woken. */
  lemma WaiterNeverRests(states: nat -> State, labels: nat -> Label, t: Thread, n: nat)
    requires Healthy(states, labels, n) && IsWaiting(states(n).At(t))
    ensures !RestsFrom(labels, t, n)
  {
    NeverUncreated(states, labels, t, n);
    hide IsRun, Fair, Delivered, Unhung, CanGo, Invariant, Exists, StepOf;
    if RestsFrom(labels, t, n) {
      if q: nat :| q >= n && !IsWaiting(states(q).At(t)) {
        RestsUntil(states, labels, t, n, q);
        RestsLater(labels, t, n, q);
        HealthyLater(states, labels, n, q);
        PlainWanterNeverRests(states, labels, t, q);
      } else {
        forall m: nat | m >= n ensures ReadyLater(states, t, m) {
          GoesUnlessItWaits(states(m), t);
          assert Ready(states(m), t);
        }
        StepsIfReady(states, labels, t, n);
      }
    }
  }

  /** No thread that is at work rests, but one that waits for mRoleSwitchLock. */
  lemma WorkingNeverRests(states: nat -> State, labels: nat -> Label, t: Thread, n: nat)
    requires Healthy(states, labels, n)
    requires var pc := states(n).At(t); !Awaits(pc) && pc != Ended && Wants(pc) != Some(RoleSwitchLock)
    ensures !RestsFrom(labels, t, n)
  {
    hide IsRun, Fair, Delivered, Unhung, RestsFrom, Wants, IsWaiting;
    var pc := states(n).At(t);
    if IsWaiting(pc) {
      WaiterNeverRests(states, labels, t, n);
    } else if Wants(pc).Some? {
      PlainWanterNeverRests(states, labels, t, n);
    } else if pc == Call(JoinWorker) {
      JoinReturns(states, labels, t, n);
    } else {
      FreeNeverRests(states, labels, t, n);
    }
  }

  // ---------- mRoleSwitchLock ----------

  /** From n on no mode switch is woken in vain. */
  ghost predicate NoRetries(states: nat -> State, labels: nat -> Label, n: nat) {
    forall k: nat, t: Thread :: k >= n && StepOf(labels(k), t) && states(k).At(t).Switch? ==>
      !Retries(states(k).At(t), states(k).vars)
  }

  lemma RoleHolder(pc: Pc)
    requires Holds(pc, RoleSwitchLock)
    ensures !Awaits(pc) && pc != Ended && Wants(pc) != Some(RoleSwitchLock) && pc != Work(CheckDestroy)
  {
  }

  /** A step of the holder of mRoleSwitchLock leaves it with the lock or nobody. */
  lemma RoleKept(s: State, label_: Label, u: Thread)
    requires Owns(s, u, RoleSwitchLock) && Next(s, label_).Some? && StepOf(label_, u)
    ensures var s' := Next(s, label_).value; RoleSwitchLock in s'.owners ==> Owns(s', u, RoleSwitchLock)
  {
    hide Program, NextPcs, NextVars, NextEvents;
  }

  lemma OwnerHolds(s: State, u: Thread, l: Lock)
    requires Invariant(s) && Owns(s, u, l)
    ensures Holds(s.At(u), l)
  {
    hide Lifecycle, Handshake, WellTyped, Holds;
  }

  lemma WindsDown(states: nat -> State, labels: nat -> Label, t: Thread, n: nat, k: nat)
    requires IsRun(states, labels) && NoRetries(states, labels, n) && n <= k && Exists(states(n), t)
    requires StepOf(labels(k), t) && forall j: nat :: n <= j < k ==> !StepOf(labels(j), t)
    requires states(k).At(t) != Idle && states(k).At(t) != Work(CheckDestroy)
    ensures Below(Left(states(k + 1).At(t)), Left(states(n).At(t)))
  {
    hide Left, Next, Exists, Reachable, Retries;
    NotAboveLater(states, labels, t, n, k);
    assert Next(states(k), labels(k)) == Some(states(k + 1));
    OnlySwitchesRetry(states(k).At(t), states(k).vars);
    assert !Retries(states(k).At(t), states(k).vars);
    StepOfWindsDown(states(k), labels(k), t);
  }

  lemma OnlySwitchesRetry(pc: Pc, v: Vars)
    requires pc != Work(CheckDestroy)
    ensures Retries(pc, v) ==> pc.Switch?
  {
  }

  lemma NoRetriesLater(states: nat -> State, labels: nat -> Label, n: nat, k: nat)
    requires NoRetries(states, labels, n) && k >= n
    ensures NoRetries(states, labels, k)
  {
    hide Retries, StepOf;
  }

  /** mRoleSwitchLock is always free again later. */
  lemma {:induction false} RoleLockIsFreed(states: nat -> State, labels: nat -> Label, n: nat)
    requires Healthy(states, labels, n) && NoRetries(states, labels, n)
    ensures FreeLater(states, RoleSwitchLock, n)
    decreases HolderLeft(states(n)).0, HolderLeft(states(n)).1
  {
    hide IsRun, Fair, Delivered, Unhung, NoRetries, RestsFrom, Left, Holds, Wants, Invariant, Exists, StepOf;
    if RoleSwitchLock in states(n).owners {
      var u := states(n).owners[RoleSwitchLock];
      assert Owns(states(n), u, RoleSwitchLock);
      RoleHolderAt(states, labels, u, n);
      WorkingNeverRests(states, labels, u, n);
      NeverUncreated(states, labels, u, n);
      var k := FirstStep(labels, u, n);
      RestsUntil(states, labels, u, n, k);
      RoleHolderAt(states, labels, u, k);
      WindsDown(states, labels, u, n, k);
      NextOf(states, labels, k);
      RoleKept(states(k), labels(k), u);
      HealthyLater(states, labels, n, k + 1);
      NoRetriesLater(states, labels, n, k + 1);
      if RoleSwitchLock in states(k + 1).owners {
        RoleLockIsFreed(states, labels, k + 1);
      }
    }
  }

  /** What the holder of mRoleSwitchLock has left to do. */
  function HolderLeft(s: State): (nat, nat) {
    if RoleSwitchLock in s.owners then Left(s.At(s.owners[RoleSwitchLock])) else (0, 0)
  }

  lemma RoleHolderAt(states: nat -> State, labels: nat -> Label, u: Thread, n: nat)
    requires IsRun(states, labels) && Owns(states(n), u, RoleSwitchLock)
    ensures var pc := states(n).At(u);
            !Awaits(pc) && pc != Ended && Wants(pc) != Some(RoleSwitchLock) && pc != Work(CheckDestroy)
  {
    ReachableLater(states, labels, n);
    ReachableInvariant(states(n));
    OwnerHolds(states(n), u, RoleSwitchLock);
    RoleHolder(states(n).At(u));
    hide Reachable, Invariant, Holds, Wants;
  }

  lemma NextOf(states: nat -> State, labels: nat -> Label, k: nat)
    requires IsRun(states, labels)
    ensures Next(states(k), labels(k)) == Some(states(k + 1))
  {
  }

  // ---------- Every call returns ----------

  lemma BinderPoint(states: nat -> State, labels: nat -> Label, b: Thread, n: nat)
    requires IsRun(states, labels) && b.Binder?
    ensures Exists(states(n), b) && !InWorker(states(n).At(b))
  {
    ReachableLater(states, labels, n);
    ReachableInvariant(states(n));
    hide Reachable, Lifecycle, Handshake, LocksMatch;
  }

  /** No binder thread rests within a call. */
  lemma CallerNeverRests(states: nat -> State, labels: nat -> Label, b: Thread, n: nat)
    requires Healthy(states, labels, n) && NoRetries(states, labels, n) && b.Binder? && states(n).At(b) != Idle
    ensures !RestsFrom(labels, b, n)
  {
    BinderPoint(states, labels, b, n);
    hide IsRun, Fair, Delivered, Unhung, NoRetries, RestsFrom, Wants, FreeLater;
    if Wants(states(n).At(b)) == Some(RoleSwitchLock) {
      forall m: nat | m >= n ensures FreeLater(states, RoleSwitchLock, m) {
        HealthyLater(states, labels, n, m);
        NoRetriesLater(states, labels, n, m);
        RoleLockIsFreed(states, labels, m);
      }
      WanterNeverRests(states, labels, b, RoleSwitchLock, n);
    } else {
      WorkingNeverRests(states, labels, b, n);
    }
  }

  lemma {:induction false} CallReturns(states: nat -> State, labels: nat -> Label, b: Thread, n: nat)
    requires Healthy(states, labels, n) && NoRetries(states, labels, n) && b.Binder?
    ensures exists k: nat :: k >= n && states(k).At(b) == Idle
    decreases Left(states(n).At(b)).0, Left(states(n).At(b)).1
  {
    hide IsRun, Fair, Delivered, Unhung, NoRetries, RestsFrom, Left, StepOf, Exists;
    if states(n).At(b) != Idle {
      CallerNeverRests(states, labels, b, n);
      var k := FirstStep(labels, b, n);
      BinderPoint(states, labels, b, n);
      BinderPoint(states, labels, b, k);
      if states(k).At(b) != Idle {
        WindsDown(states, labels, b, n, k);
        HealthyLater(states, labels, n, k + 1);
        NoRetriesLater(states, labels, n, k + 1);
        CallReturns(states, labels, b, k + 1);
      }
    }
  }

  /** In every fair endless run in which signals are delivered, nothing is embraced or parked from n on, and mode switches
      are woken in vain only finitely often: mRoleSwitchLock is always free again later, and every call a binder thread has
      begun returns: switchRole, the calls that take mLock, and setCallback. */
  lemma EveryCallReturns(states: nat -> State, labels: nat -> Label, b: Thread, n: nat)
    requires Healthy(states, labels, n) && (exists m: nat :: NoRetries(states, labels, m)) && b.Binder?
    ensures exists k: nat :: k >= n && states(k).At(b) == Idle
    ensures exists k: nat :: k >= n && RoleSwitchLock !in states(k).owners
  {
    hide Healthy, NoRetries;
    var m: nat :| NoRetries(states, labels, m);
    var q := if m < n then n else m;
    HealthyLater(states, labels, n, q);
    NoRetriesLater(states, labels, m, q);
    CallReturns(states, labels, b, q);
    RoleLockIsFreed(states, labels, q);
  }

  // ---------- Such runs exist ----------

  /** One binder thread makes the same call over and over; all others stay idle. */
  function CycleLabel(k: nat): Label {
    if k % 3 == 0 then Begin(Binder(0), Call(LockSection(0))) else Proceed(Binder(0))
  }

  ghost function CycleState(k: nat): State {
    if k == 0 then Init
    else match Next(CycleState(k - 1), CycleLabel(k - 1))
      case Some(s) => s
      case None => Init
  }

  ghost predicate Cycling(s: State, phase: int) {
    && s.At(Binder(0)) == (if phase == 0 then Idle else if phase == 1 then Call(LockSection(0)) else Call(UnlockSection(0)))
    && (forall t: Thread :: t != Binder(0) ==> s.At(t) == if t.Binder? then Idle else Ended)
    && s.vars == Init.vars && s.owners == if phase == 2 then map[CallbackLock := Binder(0)] else map[]
  }

  lemma CycleStep(s: State, k: nat)
    requires Cycling(s, k % 3)
    ensures Next(s, CycleLabel(k)).Some? && Cycling(Next(s, CycleLabel(k)).value, (k + 1) % 3)
  {
    var c := CycleLabel(k).c;
    var i := Program(s.At(Binder(0)), c);
    assert i == if k % 3 == 0 then Note(Begun(Call(LockSection(0))), Call(LockSection(0)))
                else if k % 3 == 1 then Take(CallbackLock, Call(UnlockSection(0))) else Drop(CallbackLock, None, Idle);
    hide Program;
    Moves(s, Binder(0), i, c);
    hide NextPcs;
  }

  lemma {:induction false} CycleGoes(k: nat)
    ensures Cycling(CycleState(k), k % 3)
    ensures Next(CycleState(k), CycleLabel(k)) == Some(CycleState(k + 1))
  {
    if k == 0 {
      assert Cycling(Init, 0);
      assert CycleState(0) == Init;
    } else {
      CycleGoes(k - 1);
    }
    hide Next, CycleLabel, Cycling, CycleState;
    if k > 0 { CycleStep(CycleState(k - 1), k - 1); }
    CycleStep(CycleState(k), k);
    CycleNext(k);
  }

  lemma CycleNext(k: nat)
    requires Next(CycleState(k), CycleLabel(k)).Some?
    ensures Next(CycleState(k), CycleLabel(k)) == Some(CycleState(k + 1))
  {
    hide Next, CycleLabel;
  }

  /** The hypotheses of EveryCallReturns can be met, with a finite number of threads and no uevent at all. */
  lemma HealthyRunExists()
    ensures exists states: nat -> State, labels: nat -> Label :: Healthy(states, labels, 0) && NoRetries(states, labels, 0)
  {
    var states, labels := (k: nat) => CycleState(k), (k: nat) => CycleLabel(k);
    forall k: nat ensures Cycling(states(k), k % 3) && Next(states(k), labels(k)) == Some(states(k + 1)) {
      CycleGoes(k);
    }
    hide CycleState, Next;
    assert After([]) == Some(Init);
    assert Reachable(states(0)) by { InitReachable(); }
    assert IsRun(states, labels);
    CycleFair(states, labels);
    CycleHealthy(states, labels);
  }

  lemma InitReachable()
    ensures Reachable(CycleState(0))
  {
    assert After([]) == Some(Init);
  }

  lemma CycleFair(states: nat -> State, labels: nat -> Label)
    requires forall k: nat :: Cycling(states(k), k % 3) && labels(k) == CycleLabel(k)
    ensures Fair(states, labels)
  {
    forall t: Thread | ReadyOften(states, t) ensures !EventuallyRests(labels, t) {
      assert ReadyLater(states, t, 0);
      var j: nat :| j >= 0 && Ready(states(j), t);
      GoesUnlessItWaits(states(j), t);
      assert Cycling(states(j), j % 3);
      assert t == Binder(0);
      forall m: nat ensures !RestsFrom(labels, t, m) {
        assert StepOf(labels(m), t);
      }
    }
  }

  lemma CycleHealthy(states: nat -> State, labels: nat -> Label)
    requires forall k: nat :: Cycling(states(k), k % 3)
    ensures Delivered(states) && Unhung(states, 0) && NoRetries(states, labels, 0)
  {
    forall w: nat, n: nat ensures NotPendingLater(states, w, n) {
      assert Cycling(states(n), n % 3);
    }
    forall k: nat ensures !Hung(states(k)) {
      assert Cycling(states(k), k % 3);
    }
    forall k: nat, t: Thread ensures !states(k).At(t).Switch? {
      assert Cycling(states(k), k % 3);
    }
  }
}
