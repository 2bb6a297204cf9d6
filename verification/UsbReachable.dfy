/** The invariant of the USB service holds in every reachable state; what it says about the worker threads. */
module UsbReachable {
  import opened Wrappers
  import opened UsbProtocol
  import opened UsbInvariants
  import opened UsbLifecycle
  import opened UsbHandshake

  ghost predicate Invariant(s: State) {
    WellTyped(s) && LocksMatch(s) && Lifecycle(s) && Handshake(s)
  }

  lemma InitKeeps()
    ensures Invariant(Init)
  {
  }

  lemma StepKeepsLocks(s: State, t: Thread, c: Choice)
    requires WellTyped(s) && LocksMatch(s) && Step(s, t, c).Some?
    ensures LocksMatch(Step(s, t, c).value)
  {
    var i := Program(s.At(t), c);
    forall l: Lock ensures AccountsFor(s.At(t), i, l) {
      Accounts(s.At(t), c, l);
    }
    ExecKeepsLocks(s, t, i, c);
    hide Program, Exec, LocksMatch, WellTyped;
  }

  lemma DeliverKeepsLocks(s: State, w: nat, interrupts: bool)
    requires WellTyped(s) && LocksMatch(s) && Deliver(s, w, interrupts).Some?
    ensures var s' := Deliver(s, w, interrupts).value; WellTyped(s') && LocksMatch(s')
  {
    var s' := Deliver(s, w, interrupts).value;
    forall x: Thread
      ensures s'.At(x) == s.At(x) || (x == Worker(w) && s.At(x) == Work(Poll) && s'.At(x) == Work(CheckDestroy))
    {
    }
    assert s'.owners == s.owners && s'.vars.created == s.vars.created;
    hide Deliver;
    assert WellTyped(s') by {
      forall w: nat | s'.Live(w) ensures s.Live(w) {
        assert s'.At(Worker(w)) == s.At(Worker(w)) || s.At(Worker(w)) == Work(Poll);
      }
    }
    forall x: Thread, l: Lock ensures Holds(s'.At(x), l) <==> l in s'.owners && s'.owners[l] == x {
      assert Holds(s'.At(x), l) == Holds(s.At(x), l);
    }
  }

  /** Whatever step is taken, by whatever thread, with whatever outcome. */
  lemma NextKeepsInvariant(s: State, l: Label)
    requires Invariant(s) && Next(s, l).Some?
    ensures Invariant(Next(s, l).value)
  {
    hide Step, Deliver, WellTyped, LocksMatch, Lifecycle, Handshake, TouchesLife, Program;
    match l {
      case Run(t, c) =>
        StepKeepsTypes(s, t, c);
        StepKeepsLocks(s, t, c);
        StepKeepsHandshake(s, t, c);
        if TouchesLife(Program(s.At(t), c)) {
          LifeStepKeepsLifecycle(s, t, c);
        } else {
          QuietStepKeepsLifecycle(s, t, c);
        }
      case Signal(w, interrupts) =>
        DeliverKeepsLocks(s, w, interrupts);
        DeliverKeepsLifecycle(s, w, interrupts);
        DeliverKeepsHandshake(s, w, interrupts);
    }
  }

  lemma {:induction false} RunKeepsInvariant(run: seq<Label>)
    requires After(run).Some?
    ensures Invariant(After(run).value)
  {
    hide Invariant, Next;
    if run == [] {
      InitKeeps();
    } else {
      RunKeepsInvariant(run[..|run| - 1]);
      NextKeepsInvariant(After(run[..|run| - 1]).value, run[|run| - 1]);
    }
  }

  lemma ReachableInvariant(s: State)
    requires Reachable(s)
    ensures Invariant(s)
  {
    var run :| After(run) == Some(s);
    RunKeepsInvariant(run);
    hide Invariant, After;
  }

  // ---------- The worker threads ----------

  /** In every reachable state at most one worker is alive, and none once it has been joined. Between the changes that
      setCallback makes under mLock, a callback is set only if a worker was created and not joined, and no worker is
      alive without a callback; then none has been told to end, but one that setCallback waits for has. */
  lemma WorkerLifecycle(s: State)
    requires Reachable(s)
    ensures forall v: nat, w: nat :: s.Live(v) && s.Live(w) ==> v == w
    ensures forall w: nat :: s.Live(w) ==> w !in s.vars.joined
    ensures PhaseOf(s) == Resting && s.vars.callback ==> Unjoined(s.vars)
    ensures PhaseOf(s) == Resting && !s.vars.callback ==> NoneLive(s)
    ensures PhaseOf(s) == Resting ==> forall w: nat :: s.Live(w) ==> !Told(s, w)
    ensures PhaseOf(s) == Joining ==> forall w: nat :: s.Live(w) ==> Told(s, w)
  {
    ReachableInvariant(s);
    hide PhaseOf, LocksMatch, Handshake, Reachable;
  }

  /** destroyThread goes from true to false, and a worker is created, only while no worker is alive. */
  lemma ClearedWhileNoneLive(s: State, l: Label)
    requires Reachable(s) && Next(s, l).Some?
    ensures var s' := Next(s, l).value;
            (s.vars.destroyThread && !s'.vars.destroyThread) || s'.vars.created != s.vars.created ==> NoneLive(s)
  {
    ReachableInvariant(s);
    if l.Run? {
      var i := Program(s.At(l.t), l.c);
      if TouchesLife(i) {
        LifeStep(s, l.t, l.c);
        LifeSteps(s.At(l.t), l.c);
      } else {
        QuietStep(s, l.t, l.c);
      }
    }
    hide Program, Reachable, Exec, LocksMatch, Handshake, WellTyped, PhaseOf;
  }
}
