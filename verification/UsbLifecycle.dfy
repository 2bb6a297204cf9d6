/** The life of the worker threads across setCallback (usb/usb/Usb.cpp:765-871). */
module UsbLifecycle {
  import opened Wrappers
  import opened UsbProtocol
  import opened UsbInvariants

  /** What setCallback is about to do while it holds mLock. */
  datatype Phase = Clearing | Creating | Killing | Joining | Resting

  function PhaseAt(pc: Pc): Phase {
    if pc == Call(ClearDestroy) then Clearing
    else if pc == Call(CreateWorker) then Creating
    else if pc == Call(KillWorker) then Killing
    else if pc == Call(JoinWorker) then Joining
    else Resting
  }

  function PhaseOf(s: State): Phase {
    if CallbackLock in s.owners then PhaseAt(s.At(s.owners[CallbackLock])) else Resting
  }

  ghost predicate NoneLive(s: State) {
    forall w: nat :: !s.Live(w)
  }

  /** The last worker created has not been joined. */
  ghost predicate Unjoined(v: Vars) {
    v.poll.Some? && v.poll.value !in v.joined
  }

  /** A worker has been told to end, or the signal that tells it is pending. */
  predicate Told(s: State, w: nat) {
    s.vars.destroyThread || w in s.vars.signalled
  }

  /** No live worker has been told to end. */
  ghost predicate Untold(s: State) {
    forall w: nat :: s.Live(w) ==> !Told(s, w)
  }

  /** Only the last worker created can be alive, and only unjoined workers are. */
  ghost predicate LiveIsPoll(s: State) {
    && (forall w: nat :: s.Live(w) ==> s.vars.poll == Some(w))
    && (forall w: nat :: w in s.vars.joined ==> !s.Live(w) && w < s.vars.created)
    && (forall w: nat :: w in s.vars.signalled ==> w < s.vars.created)
    && (s.vars.poll.Some? ==> s.vars.poll.value < s.vars.created)
    && (s.vars.callback ==> Unjoined(s.vars) || PhaseOf(s) == Clearing || PhaseOf(s) == Creating)
  }

  /** Between calls of setCallback a callback is set only if the last worker created has not been joined, and none is
      set only if no worker lives. A worker is created, and destroyThread cleared before that, only when none lives; a
      live worker is told to end exactly while setCallback waits for it. */
  ghost predicate Lifecycle(s: State) {
    && LiveIsPoll(s)
    && match PhaseOf(s)
       case Clearing => s.vars.callback && NoneLive(s)
       case Creating => s.vars.callback && NoneLive(s) && !s.vars.destroyThread
       case Killing => !s.vars.callback && Unjoined(s.vars) && Untold(s)
       case Joining => !s.vars.callback && Unjoined(s.vars) && (s.PollLive() ==> Told(s, s.vars.poll.value))
       case Resting => Untold(s) && (!s.vars.callback ==> NoneLive(s))
  }

  predicate TouchesLife(i: Instr) {
    i.AssignCallback? || i.Kill? || i.Join? || i.AssignDestroy? || i.Create?
  }

  /** The steps that touch the workers' life are those of setCallback, under mLock; they are what PhaseAt tells. */
  lemma LifeSteps(pc: Pc, c: Choice)
    ensures var i := Program(pc, c);
            && (i.AssignCallback? ==>
                  && pc.Call? && pc.k.SetCallback? && i.set_ == pc.k.register
                  && i.next == Call(if i.set_ then ClearDestroy else KillWorker) && i.otherwise == Call(UnlockSet))
            && (i.Kill? ==> pc == Call(KillWorker) && i.next == Call(JoinWorker) && i.otherwise == Call(UnlockSet))
            && (i.Join? ==> pc == Call(JoinWorker) && i.next == Call(UnlockSet))
            && (i.AssignDestroy? ==> pc == Call(ClearDestroy) && i.next == Call(CreateWorker))
            && (i.Create? ==> pc == Call(CreateWorker) && i.next == Call(UnlockSet) && i.otherwise == Call(UnlockSet))
            && (!TouchesLife(i) ==>
                  && PhaseAt(pc) == Resting
                  && (!i.Stop? ==> PhaseAt(i.next) == Resting) && (Branches(i) ==> PhaseAt(i.otherwise) == Resting))
  {
    match pc {
      case Switch(p) => SwitchLife(p, c);
      case Call(p) => CallLife(p, c);
      case Work(p) => WorkLife(p, c);
      case Idle =>
      case Ended =>
    }
    hide SwitchProgram, CallProgram, WorkProgram;
  }

  predicate Restful(i: Instr) {
    && !TouchesLife(i)
    && (!i.Stop? ==> PhaseAt(i.next) == Resting) && (Branches(i) ==> PhaseAt(i.otherwise) == Resting)
  }

  lemma SwitchLife(p: SwitchPc, c: Choice)
    ensures Restful(SwitchProgram(p, c))
  {
  }

  lemma WorkLife(p: WorkPc, c: Choice)
    ensures Restful(WorkProgram(p, c))
  {
  }

  lemma CallLife(p: CallPc, c: Choice)
    ensures var i := CallProgram(p, c);
            && (i.AssignCallback? ==>
                  && p.SetCallback? && i.set_ == p.register
                  && i.next == Call(if i.set_ then ClearDestroy else KillWorker) && i.otherwise == Call(UnlockSet))
            && (i.Kill? ==> p == KillWorker && i.next == Call(JoinWorker) && i.otherwise == Call(UnlockSet))
            && (i.Join? ==> p == JoinWorker && i.next == Call(UnlockSet))
            && (i.AssignDestroy? ==> p == ClearDestroy && i.next == Call(CreateWorker))
            && (i.Create? ==> p == CreateWorker && i.next == Call(UnlockSet) && i.otherwise == Call(UnlockSet))
            && (!TouchesLife(i) ==> Restful(i) && PhaseAt(Call(p)) == Resting)
  {
  }

  /** A step that does not touch the workers' life keeps the phase, lets no worker come alive, and changes no variable
      but mPartnerUp. */
  lemma QuietStep(s: State, t: Thread, c: Choice)
    requires WellTyped(s) && LocksMatch(s) && Step(s, t, c).Some? && !TouchesLife(Program(s.At(t), c))
    ensures var s' := Step(s, t, c).value;
            && PhaseOf(s') == PhaseOf(s)
            && (forall w: nat :: s'.Live(w) ==> s.Live(w))
            && s'.vars == s.vars.(partnerUp := s'.vars.partnerUp)
  {
    var i := Program(s.At(t), c);
    var s', u := Step(s, t, c).value, Other(s, i, c);
    Moves(s, t, i, c);
    LifeSteps(s.At(t), c);
    Accounts(s.At(t), c, CallbackLock);
    hide Program, NextPcs, NextEvents;
    forall w: nat | s'.Live(w) ensures s.Live(w) {
      if Worker(w) == t {
        EndedStops(c);
      } else if u.Some? && Worker(w) == u.value.0 {
      } else {
        assert s'.At(Worker(w)) == s.At(Worker(w));
      }
    }
  }

  lemma EndedStops(c: Choice)
    ensures Program(Ended, c) == Stop
  {
  }

  lemma QuietStepKeepsLifecycle(s: State, t: Thread, c: Choice)
    requires WellTyped(s) && LocksMatch(s) && Lifecycle(s)
    requires Step(s, t, c).Some? && !TouchesLife(Program(s.At(t), c))
    ensures Lifecycle(Step(s, t, c).value)
  {
    QuietStep(s, t, c);
    hide Step, PhaseOf;
  }

  /** A step of setCallback on the workers' life: its thread holds mLock before and after, and no other moves but a
      worker that is created. */
  lemma LifeStep(s: State, t: Thread, c: Choice)
    requires WellTyped(s) && LocksMatch(s) && Step(s, t, c).Some? && TouchesLife(Program(s.At(t), c))
    ensures var s', i := Step(s, t, c).value, Program(s.At(t), c);
            PhaseOf(s) == PhaseAt(s.At(t)) && LifeMove(s, s', i, c)
  {
    var i := Program(s.At(t), c);
    var s', u := Step(s, t, c).value, Other(s, i, c);
    Moves(s, t, i, c);
    LifeSteps(s.At(t), c);
    assert Holds(s.At(t), CallbackLock);
    hide Program, NextPcs, NextEvents, NextVars;
    forall w: nat ensures s'.Live(w) <==> s.Live(w) || (i.Create? && c.ok && w == s.vars.created) {
      if u.Some? && Worker(w) == u.value.0 {
      } else {
        assert s'.At(Worker(w)) == s.At(Worker(w));
      }
    }
  }

  lemma LifeStepKeepsLifecycle(s: State, t: Thread, c: Choice)
    requires WellTyped(s) && LocksMatch(s) && Lifecycle(s)
    requires Step(s, t, c).Some? && TouchesLife(Program(s.At(t), c))
    ensures Lifecycle(Step(s, t, c).value)
  {
    var i, s' := Program(s.At(t), c), Step(s, t, c).value;
    LifeStep(s, t, c);
    LifeSteps(s.At(t), c);
    assert i.Join? ==> !s.PollLive();
    hide Step, Program, PhaseOf, Lifecycle;
    match i {
      case AssignCallback(_, _, _) => AssignCallbackKeeps(s, s', i, c);
      case Kill(_, _) => KillKeeps(s, s', i, c);
      case Join(_) => JoinKeeps(s, s', i, c);
      case AssignDestroy(_) => AssignDestroyKeeps(s, s', i, c);
      case Create(_, _) => CreateKeeps(s, s', i, c);
    }
  }

  /** What LifeStep says, with the instruction's own phases. */
  ghost predicate LifeMove(s: State, s': State, i: Instr, c: Choice) {
    && PhaseOf(s') == PhaseAt(NextPc(s, i, c)) && s'.vars == NextVars(s, i, c)
    && forall w: nat :: s'.Live(w) <==> s.Live(w) || (i.Create? && c.ok && w == s.vars.created)
  }

  lemma AssignCallbackKeeps(s: State, s': State, i: Instr, c: Choice)
    requires Lifecycle(s) && LifeMove(s, s', i, c) && PhaseOf(s) == Resting
    requires i.AssignCallback? && i.otherwise == Call(UnlockSet)
    requires i.next == Call(if i.set_ then ClearDestroy else KillWorker)
    ensures Lifecycle(s')
  {
    hide PhaseOf;
  }

  lemma KillKeeps(s: State, s': State, i: Instr, c: Choice)
    requires Lifecycle(s) && LifeMove(s, s', i, c) && PhaseOf(s) == Killing
    requires i == Kill(Call(JoinWorker), Call(UnlockSet))
    ensures Lifecycle(s')
  {
    hide PhaseOf;
  }

  lemma JoinKeeps(s: State, s': State, i: Instr, c: Choice)
    requires Lifecycle(s) && LifeMove(s, s', i, c) && PhaseOf(s) == Joining
    requires i == Join(Call(UnlockSet)) && !s.PollLive()
    ensures Lifecycle(s')
  {
    hide PhaseOf;
  }

  lemma AssignDestroyKeeps(s: State, s': State, i: Instr, c: Choice)
    requires Lifecycle(s) && LifeMove(s, s', i, c) && PhaseOf(s) == Clearing
    requires i == AssignDestroy(Call(CreateWorker))
    ensures Lifecycle(s')
  {
    hide PhaseOf;
  }

  lemma CreateKeeps(s: State, s': State, i: Instr, c: Choice)
    requires Lifecycle(s) && LifeMove(s, s', i, c) && PhaseOf(s) == Creating
    requires i == Create(Call(UnlockSet), Call(UnlockSet))
    ensures Lifecycle(s')
  {
    hide PhaseOf;
  }

  lemma DeliverKeepsLifecycle(s: State, w: nat, interrupts: bool)
    requires WellTyped(s) && LocksMatch(s) && Lifecycle(s) && Deliver(s, w, interrupts).Some?
    ensures Lifecycle(Deliver(s, w, interrupts).value)
  {
    var s' := Deliver(s, w, interrupts).value;
    forall x: Thread ensures s'.At(x) == s.At(x) || (x == Worker(w) && s'.At(x) == Work(CheckDestroy)) {
    }
  }
}
