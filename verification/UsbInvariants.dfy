/** What every step of the USB service keeps. */
module UsbInvariants {
  import opened Wrappers
  import opened Uevent
  import opened UsbProtocol

  // ---------- Locks ----------

  predicate SwitchHolds(pc: SwitchPc, l: Lock) {
    match l
    case RoleSwitchLock => !pc.LockRole?
    case PartnerLock => pc.ClearPartnerUp? || pc.WriteRole? || pc.SeeWrite? || pc.StartWait? || pc.CheckPartnerUp? || pc.UnlockPartner?
    case CallbackLock => pc.NotifySwitch? || pc.UnlockNotified?
  }

  predicate CallHolds(pc: CallPc, l: Lock) {
    l == CallbackLock && !pc.LockSection? && !pc.LockToSet?
  }

  predicate WorkHolds(pc: WorkPc, l: Lock) {
    match l
    case RoleSwitchLock => pc.RestoreDrp? || pc.WriteDual? || pc.UnlockRestored?
    case PartnerLock => pc.SetPartnerUp? || pc.SignalPartner? || pc.UnlockPartnerSet?
    case CallbackLock => pc.QueryPorts? || pc.UnlockQuery?
  }

  /** The program points between taking a lock and dropping it. */
  predicate Holds(pc: Pc, l: Lock) {
    match pc
    case Switch(p) => SwitchHolds(p, l)
    case Call(p) => CallHolds(p, l)
    case Work(p) => WorkHolds(p, l)
    case _ => false
  }

  predicate Branches(i: Instr) {
    i.TryTake? || i.TestPartnerUp? || i.AssignCallback? || i.Kill? || i.TestDestroy? || i.Create?
  }

  predicate Takes(i: Instr, l: Lock) {
    (i.Take? || i.TryTake?) && i.l == l
  }

  predicate Drops(i: Instr, l: Lock) {
    (i.Drop? && i.l == l) || (i.Wait? && l == PartnerLock)
  }

  predicate AccountsFor(pc: Pc, i: Instr, l: Lock) {
    var h := Holds(pc, l);
    && (!i.Stop? ==> Holds(i.next, l) == if Takes(i, l) then true else if Drops(i, l) then false else h)
    && (Branches(i) ==> Holds(i.otherwise, l) == h)
    && (Takes(i, l) ==> !h) && (Drops(i, l) ==> h)
  }

  lemma SwitchAccounts(pc: SwitchPc, c: Choice, l: Lock)
    ensures AccountsFor(Switch(pc), SwitchProgram(pc, c), l)
  {
  }

  lemma CallAccounts(pc: CallPc, c: Choice, l: Lock)
    ensures AccountsFor(Call(pc), CallProgram(pc, c), l)
  {
  }

  lemma WorkAccounts(pc: WorkPc, c: Choice, l: Lock)
    ensures AccountsFor(Work(pc), WorkProgram(pc, c), l)
  {
    hide Handled;
  }

  lemma Accounts(pc: Pc, c: Choice, l: Lock)
    ensures AccountsFor(pc, Program(pc, c), l)
  {
    match pc {
      case Switch(p) => SwitchAccounts(p, c, l);
      case Call(p) => CallAccounts(p, c, l);
      case Work(p) => WorkAccounts(p, c, l);
      case Idle => IdleAccounts(c, l);
      case Ended => IdleAccounts(c, l);
    }
    hide SwitchProgram, CallProgram, WorkProgram, AccountsFor;
  }

  lemma IdleAccounts(c: Choice, l: Lock)
    ensures AccountsFor(Idle, Program(Idle, c), l) && AccountsFor(Ended, Stop, l)
  {
  }

  /** A lock is held by exactly the thread whose program point says so. */
  ghost predicate LocksMatch(s: State) {
    forall t: Thread, l: Lock :: Holds(s.At(t), l) <==> l in s.owners && s.owners[l] == t
  }

  /** No two threads are between taking a lock and dropping it. */
  lemma Exclusive(s: State, t: Thread, u: Thread, l: Lock)
    requires LocksMatch(s) && t != u
    ensures !(Holds(s.At(t), l) && Holds(s.At(u), l))
  {
    hide Holds;
    if Holds(s.At(t), l) { assert l in s.owners && s.owners[l] == t; }
  }

  /** Workers that have not been created do not run, and threads stay in their own part of the program. */
  ghost predicate WellTyped(s: State) {
    && (forall w: nat :: s.Live(w) ==> w < s.vars.created)
    && (forall t: Thread :: InWorker(s.At(t)) <==> t.Worker?)
  }

  predicate InWorker(pc: Pc) {
    pc.Work? || pc.Ended?
  }

  /** The threads an instruction moves, and where to. */
  lemma Moves(s: State, t: Thread, i: Instr, c: Choice)
    requires Exec(s, t, i, c).Some?
    ensures var s', u := Exec(s, t, i, c).value, Other(s, i, c);
            && s'.At(t) == NextPc(s, i, c)
            && (u.Some? && u.value.0 != t ==> s'.At(u.value.0) == u.value.1)
            && (forall x: Thread :: x != t && (u.Some? ==> x != u.value.0) ==> s'.At(x) == s.At(x))
  {
    hide NextPc, Other, NextOwners, NextVars, NextEvents, Enabled;
  }

  lemma ExecKeepsLocks(s: State, t: Thread, i: Instr, c: Choice)
    requires WellTyped(s) && LocksMatch(s) && Exec(s, t, i, c).Some?
    requires forall l: Lock :: AccountsFor(s.At(t), i, l)
    ensures LocksMatch(Exec(s, t, i, c).value)
  {
    Moves(s, t, i, c);
    var s', u := Exec(s, t, i, c).value, Other(s, i, c);
    forall x: Thread, l: Lock ensures Holds(s'.At(x), l) <==> l in s'.owners && s'.owners[l] == x {
      assert AccountsFor(s.At(t), i, l);
      OwnersFollow(s, t, i, x, l);
      if x == t {
        StepperHolds(s, t, i, c, l);
      } else if u.Some? && x == u.value.0 {
        OtherHolds(s, i, c, l);
      } else {
        assert s'.At(x) == s.At(x);
      }
    }
    hide NextPcs, NextVars, NextEvents, NextOwners, Holds, AccountsFor, Other, NextPc, LocksMatch, WellTyped;
  }

  /** The owners after an instruction, thread by thread. */
  lemma OwnersFollow(s: State, t: Thread, i: Instr, x: Thread, l: Lock)
    requires LocksMatch(s) && AccountsFor(s.At(t), i, l) && (i.Take? ==> i.l !in s.owners)
    ensures var owners := NextOwners(s, t, i);
            (l in owners && owners[l] == x) <==>
            if x != t then Holds(s.At(x), l)
            else if Takes(i, l) && l !in s.owners then true
            else if Drops(i, l) then false
            else Holds(s.At(t), l)
  {
    assert Holds(s.At(t), l) <==> l in s.owners && s.owners[l] == t;
    assert Holds(s.At(x), l) <==> l in s.owners && s.owners[l] == x;
    hide Holds, LocksMatch;
  }

  lemma StepperHolds(s: State, t: Thread, i: Instr, c: Choice, l: Lock)
    requires AccountsFor(s.At(t), i, l) && Enabled(s, i, c)
    ensures Holds(NextPc(s, i, c), l) <==>
            if Takes(i, l) && l !in s.owners then true else if Drops(i, l) then false else Holds(s.At(t), l)
  {
    hide Holds;
  }

  lemma OtherHolds(s: State, i: Instr, c: Choice, l: Lock)
    requires WellTyped(s) && Other(s, i, c).Some?
    ensures var u := Other(s, i, c).value; Holds(u.1, l) == Holds(s.At(u.0), l)
  {
    assert !s.Live(s.vars.created);
  }

  // ---------- Parts of the program ----------

  /** Binder threads stay in the binder's part of the program, workers in theirs. */
  predicate StaysIn(pc: Pc, i: Instr) {
    && (!i.Stop? ==> InWorker(i.next) == InWorker(pc))
    && (Branches(i) ==> InWorker(i.otherwise) == InWorker(pc))
  }

  lemma ProgramStays(pc: Pc, c: Choice)
    ensures StaysIn(pc, Program(pc, c))
    ensures Program(pc, c).Create? ==> pc == Call(CreateWorker)
  {
    match pc {
      case Switch(p) => SwitchStays(p, c);
      case Call(p) => CallStays(p, c);
      case Work(p) => WorkStays(p, c);
      case Idle =>
      case Ended =>
    }
    hide SwitchProgram, CallProgram, WorkProgram;
  }

  lemma SwitchStays(p: SwitchPc, c: Choice)
    ensures StaysIn(Switch(p), SwitchProgram(p, c)) && !SwitchProgram(p, c).Create?
  {
  }

  lemma CallStays(p: CallPc, c: Choice)
    ensures StaysIn(Call(p), CallProgram(p, c)) && (CallProgram(p, c).Create? ==> p == CreateWorker)
  {
  }

  lemma WorkStays(p: WorkPc, c: Choice)
    ensures StaysIn(Work(p), WorkProgram(p, c)) && !WorkProgram(p, c).Create?
  {
  }

  lemma StepKeepsTypes(s: State, t: Thread, c: Choice)
    requires WellTyped(s) && Step(s, t, c).Some?
    ensures WellTyped(Step(s, t, c).value)
  {
    var i := Program(s.At(t), c);
    ProgramStays(s.At(t), c);
    Moves(s, t, i, c);
    hide Program, NextPcs, NextOwners, NextEvents;
    var s', u := Step(s, t, c).value, Other(s, i, c);
    forall x: Thread ensures InWorker(s'.At(x)) <==> x.Worker? {
      if x == t {
      } else if u.Some? && x == u.value.0 {
      } else {
        assert s'.At(x) == s.At(x);
      }
    }
    forall w: nat | s'.Live(w) ensures w < s'.vars.created {
      if Worker(w) != t && (u.Some? ==> Worker(w) != u.value.0) {
        assert s'.At(Worker(w)) == s.At(Worker(w));
      }
      assert s.Live(w) || w == s.vars.created;
    }
  }
}
