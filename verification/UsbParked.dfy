/** The second way setCallback(NULL) can hang: the signal is handled just before epoll_wait, and the worker waits for a
    uevent while it is joined (usb/usb/Usb.cpp:799-834, 848-853). */
module UsbParked {
  import opened Wrappers
  import opened Uevent
  import opened UsbProtocol
  import opened UsbInvariants
  import opened UsbLifecycle
  import opened UsbHandshake
  import opened UsbReachable
  import opened UsbRuns
  import opened UsbDeadlock

  /** What is not up to the threads: a binder thread waits for its next call, a worker in epoll_wait for a uevent. */
  predicate Awaits(pc: Pc) {
    pc == Idle || pc == Work(Poll)
  }

  /** A joined worker is in epoll_wait, and the signal that told it to end has come and gone. */
  predicate Parked(s: State) {
    Joins(s, Work(Poll)) && s.vars.destroyThread && s.vars.poll.value !in s.vars.signalled
  }

  /** A thread can go on without a call or a uevent: by itself, or through a signal that is pending. */
  ghost predicate GoesUnprompted(s: State, t: Thread) {
    CanGo(s, t) && (Awaits(s.At(t)) ==> t.Worker? && t.id in s.vars.signalled)
  }

  // ---------- Only the worker itself ends it ----------

  /** Every step but the worker's own keeps it. */
  lemma ParkedStays(s: State, l: Label)
    requires Invariant(s) && Parked(s) && Next(s, l).Some?
    requires !(l.Run? && l.t == Worker(s.vars.poll.value))
    ensures var s' := Next(s, l).value;
            Parked(s') && s'.vars.poll == s.vars.poll && s'.owners[CallbackLock] == s.owners[CallbackLock]
  {
    match l {
      case Run(t, c) =>
        StepKeepsJoin(s, t, c, Work(Poll));
      case Signal(w, interrupts) =>
        NoneSignalled(s, w);
    }
    hide Step, Invariant;
  }

  /** Only the last worker can take a signal. */
  lemma NoneSignalled(s: State, w: nat)
    requires Invariant(s) && Parked(s)
    ensures !(w in s.vars.signalled && s.Live(w))
  {
    hide Handshake, LocksMatch, WellTyped, PhaseOf;
    if s.Live(w) { assert s.vars.poll == Some(w); }
  }

  /** Until a uevent comes or epoll_wait fails, it stays so in every continuation of the run. */
  lemma {:induction false} ParkedForever(run: seq<Label>, more: seq<Label>)
    requires After(run).Some? && Parked(After(run).value) && After(run + more).Some?
    requires forall l :: l in more && l.Run? ==> l.t != Worker(After(run).value.vars.poll.value)
    ensures var s, s' := After(run).value, After(run + more).value;
            Parked(s') && s'.vars.poll == s.vars.poll && s'.owners[CallbackLock] == s.owners[CallbackLock]
  {
    hide Parked, Next, Invariant;
    if more == [] {
      assert run + more == run;
    } else {
      var before := more[..|more| - 1];
      assert (run + more)[..|run + more| - 1] == run + before;
      assert more[|more| - 1] in more && forall l :: l in before ==> l in more;
      ParkedForever(run, before);
      RunKeepsInvariant(run + before);
      ParkedStays(After(run + before).value, more[|more| - 1]);
    }
  }

  // ---------- How it comes about ----------

  /** Whenever a worker is in epoll_wait, or just before it, and nobody holds mLock, setCallback(NULL) can park it. */
  lemma UnregisterParks(run: seq<Label>, b: Thread, w: nat)
    requires After(run).Some? && b.Binder? && After(run).value.At(b) == Idle && CallbackLock !in After(run).value.owners
    requires After(run).value.vars.poll == Some(w) && After(run).value.At(Worker(w)) == Work(Poll)
    ensures var parked := run + Unregister(b) + [Signal(w, false)];
            After(parked).Some? && Parked(After(parked).value)
  {
    UnregisterJoins(run, b, w, Poll);
    hide Unregister, After, Parked;
    SignalParks(run + Unregister(b), b, w);
  }

  lemma SignalParks(run: seq<Label>, b: Thread, w: nat)
    requires JoinComes(run, b, w, Poll)
    ensures var parked := run + [Signal(w, false)];
            After(parked).Some? && Parked(After(parked).value)
  {
    var s, l := After(run).value, Signal(w, false);
    assert (run + [l])[..|run|] == run;
    assert After(run + [l]) == Next(s, l);
    assert s.Live(w);
    hide After;
  }

  /** setCallback(NULL) of thread b after its signal: b and the worker are at given points. */
  ghost predicate Closing(run: seq<Label>, b: Thread, bpc: Pc, w: nat, wpc: Pc) {
    After(run).Some? && var s := After(run).value;
    && b.Binder? && s.At(b) == bpc && s.At(Worker(w)) == wpc && s.vars.poll == Some(w)
    && s.vars.destroyThread && !s.vars.callback && (bpc == Idle <==> CallbackLock !in s.owners)
    && (bpc != Call(JoinWorker) ==> w in s.vars.joined)
  }

  lemma Interrupts(run: seq<Label>, b: Thread, w: nat)
    requires JoinComes(run, b, w, Poll) && b.Binder?
    ensures Closing(run + [Signal(w, true)], b, Call(JoinWorker), w, Work(CheckDestroy))
  {
    var s, l := After(run).value, Signal(w, true);
    assert (run + [l])[..|run|] == run;
    assert After(run + [l]) == Next(s, l);
    assert s.Live(w);
    hide After;
  }

  lemma WorkerEnds(run: seq<Label>, b: Thread, w: nat)
    requires Closing(run, b, Call(JoinWorker), w, Work(CheckDestroy))
    ensures Closing(run + [Proceed(Worker(w))], b, Call(JoinWorker), w, Ended)
  {
    OneStepMore(run, Worker(w), Proceed(Worker(w)).c);
    hide After;
  }

  lemma Joined(run: seq<Label>, b: Thread, w: nat)
    requires Closing(run, b, Call(JoinWorker), w, Ended)
    ensures Closing(run + [Proceed(b)], b, Call(UnlockSet), w, Ended)
  {
    OneStepMore(run, b, Proceed(b).c);
    hide After, SwitchProgram, WorkProgram;
  }

  lemma Unlocks(run: seq<Label>, b: Thread, w: nat)
    requires Closing(run, b, Call(UnlockSet), w, Ended)
    ensures Closing(run + [Proceed(b)], b, Idle, w, Ended)
  {
    OneStepMore(run, b, Proceed(b).c);
    hide After, SwitchProgram, WorkProgram;
  }

  /** If the same signal interrupts epoll_wait, setCallback(NULL) returns: the worker has ended and is joined, the
      callback is cleared and mLock free. */
  lemma UnregisterCompletes(run: seq<Label>, b: Thread, w: nat)
    requires After(run).Some? && b.Binder? && After(run).value.At(b) == Idle && CallbackLock !in After(run).value.owners
    requires After(run).value.vars.poll == Some(w) && After(run).value.At(Worker(w)) == Work(Poll)
    ensures var done := run + Unregister(b) + [Signal(w, true), Proceed(Worker(w)), Proceed(b), Proceed(b)];
            && After(done).Some? && var s := After(done).value;
            && s.At(b) == Idle && s.At(Worker(w)) == Ended && w in s.vars.joined
            && !s.vars.callback && CallbackLock !in s.owners
  {
    UnregisterJoins(run, b, w, Poll);
    var r1 := run + Unregister(b) + [Signal(w, true)];
    var r2 := r1 + [Proceed(Worker(w))];
    var r3 := r2 + [Proceed(b)];
    assert r3 + [Proceed(b)] == run + Unregister(b) + [Signal(w, true), Proceed(Worker(w)), Proceed(b), Proceed(b)];
    hide Unregister, After, Proceed, JoinComes;
    Interrupts(run + Unregister(b), b, w);
    WorkerEnds(r1, b, w);
    Joined(r2, b, w);
    Unlocks(r3, b, w);
  }

  /** A registration and an unregistration, with no system call failing, can end in that hang; it is no embrace. */
  lemma ParkedReachable()
    ensures var run := FirstMessage("")[..8] + Unregister(Binder(0)) + [Signal(0, false)];
            After(run).Some? && Parked(After(run).value) && !Embrace(After(run).value)
  {
    AtPoll("");
    assert |FirstMessage("")| == 10;
    hide *;
    IdlePairParks(FirstMessage("")[..8], Binder(0), 0);
  }

  lemma IdlePairParks(run: seq<Label>, b: Thread, w: nat)
    requires On(run, Idle, Work(Poll), REGISTERED) && b == Binder(0) && w == 0
    ensures var parked := run + Unregister(b) + [Signal(w, false)];
            After(parked).Some? && Parked(After(parked).value) && !Embrace(After(parked).value)
  {
    hide Unregister, After, Parked, Embrace;
    UnregisterParks(run, b, w);
    ParkedIsNoEmbrace(After(run + Unregister(b) + [Signal(w, false)]).value);
  }

  lemma ParkedIsNoEmbrace(s: State)
    requires Parked(s)
    ensures !Embrace(s)
  {
  }

  // ---------- Where waits lead ----------

  /** A chain of waits ends at a thread that another waits for. */
  lemma {:induction false} ChainEndIsWaitedFor(s: State, t: Thread, n: nat) returns (x: Thread)
    requires WaitsFor(s, t).Some? && n > 0
    ensures WaitsFor(s, x) == Some(Chain(s, t, n))
    decreases n
  {
    hide WaitsFor;
    var u := WaitsFor(s, t).value;
    if n == 1 || WaitsFor(s, u) == None {
      x := t;
    } else {
      x := ChainEndIsWaitedFor(s, u, n - 1);
    }
  }

  lemma HoldersAwaitNothing(pc: Pc, l: Lock)
    requires Holds(pc, l)
    ensures !Awaits(pc)
  {
  }

  /** The thread that another waits for awaits nothing but the end of epoll_wait, when it is joined there. */
  lemma WaitedForAwaits(s: State, x: Thread)
    requires Invariant(s) && WaitsFor(s, x).Some? && Awaits(s.At(WaitsFor(s, x).value))
    ensures Joins(s, Work(Poll)) && s.owners[CallbackLock] == x && WaitsFor(s, x) == Some(Worker(s.vars.poll.value))
  {
    hide Lifecycle, Handshake;
    var pc, u := s.At(x), WaitsFor(s, x).value;
    if Wants(pc).Some? {
      HoldersAwaitNothing(s.At(u), Wants(pc).value);
    } else {
      assert Holds(pc, CallbackLock);
      assert InWorker(s.At(u));
    }
  }

  /** A joined worker has been told to end, or will be by a pending signal. */
  lemma JoinedIsTold(s: State)
    requires Invariant(s) && Joins(s, Work(Poll))
    ensures Parked(s) <==> s.vars.poll.value !in s.vars.signalled
  {
    hide Handshake, LocksMatch, WellTyped;
    assert PhaseOf(s) == Joining;
    assert s.PollLive();
  }

  /** In every reachable state every thread that waits waits, in the end, for one that can go on without a new call or
      uevent, if and only if nobody is embraced or parked. */
  lemma WaitsLeadOn(s: State)
    requires Reachable(s)
    ensures (forall t: Thread :: WaitsFor(s, t).Some? ==> GoesUnprompted(s, Chain(s, t, 4))) <==> !Embrace(s) && !Parked(s)
  {
    ReachableInvariant(s);
    hide Reachable, Invariant, CanGo, WaitsFor, Embrace, Parked, Chain;
    if Embrace(s) || Parked(s) {
      var t := Stuck(s);
    } else {
      forall t: Thread | WaitsFor(s, t).Some? ensures GoesUnprompted(s, Chain(s, t, 4)) {
        LeadsOn(s, t);
      }
    }
  }

  lemma LeadsOn(s: State, t: Thread)
    requires Reachable(s) && Invariant(s) && WaitsFor(s, t).Some? && !Embrace(s) && !Parked(s)
    ensures GoesUnprompted(s, Chain(s, t, 4))
  {
    WaitsEnd(s);
    WaitingIsAlive(s, t);
    var u := Chain(s, t, 4);
    var x := ChainEndIsWaitedFor(s, t, 4);
    hide Reachable, Invariant, CanGo, WaitsFor, Embrace, Parked, Chain;
    assert CanGo(s, u);
    if Awaits(s.At(u)) {
      WaitedForAwaits(s, x);
      JoinedIsTold(s);
    }
  }

  lemma WaitingIsAlive(s: State, t: Thread)
    requires WaitsFor(s, t).Some?
    ensures s.At(t) != Ended
  {
  }

  /** The joiner of a hang waits for a thread that cannot go on unprompted. */
  lemma Stuck(s: State) returns (t: Thread)
    requires Embrace(s) || Parked(s)
    ensures s.At(t) == Call(JoinWorker) && WaitsFor(s, t).Some? && !GoesUnprompted(s, Chain(s, t, 4))
  {
    t := s.owners[CallbackLock];
    if Embrace(s) {
      EmbraceHasNoEnd(s, t, 4);
      GoesUnlessItWaits(s, Chain(s, t, 4));
    } else {
      assert WaitsFor(s, t) == Some(Worker(s.vars.poll.value));
      ChainToPoll(s, t);
    }
  }

  lemma ChainToPoll(s: State, t: Thread)
    requires WaitsFor(s, t).Some? && WaitsFor(s, WaitsFor(s, t).value) == None
    ensures Chain(s, t, 4) == WaitsFor(s, t).value
  {
    hide WaitsFor;
    assert Chain(s, WaitsFor(s, t).value, 3) == WaitsFor(s, t).value;
  }

  /** The same for setCallback(NULL) alone: in every reachable state its join leads to a thread that can go on without a
      new uevent if and only if it is neither embraced nor parked. */
  lemma JoinLeadsOn(s: State, t: Thread)
    requires Reachable(s) && s.At(t) == Call(JoinWorker)
    ensures GoesUnprompted(s, Chain(s, t, 4)) <==> !Embrace(s) && !Parked(s)
  {
    ReachableInvariant(s);
    OneJoiner(s, t);
    if Embrace(s) || Parked(s) {
      var u := Stuck(s);
      assert u == t by { OneJoiner(s, u); }
    } else if WaitsFor(s, t).Some? {
      LeadsOn(s, t);
    } else {
      GoesUnlessItWaits(s, t);
    }
    hide Reachable, Invariant, CanGo, Wants, Embrace, Parked;
  }

  lemma OneJoiner(s: State, t: Thread)
    requires Invariant(s) && s.At(t) == Call(JoinWorker)
    ensures CallbackLock in s.owners && s.owners[CallbackLock] == t
  {
    hide Lifecycle, Handshake, WellTyped;
    assert Holds(s.At(t), CallbackLock);
  }
}
