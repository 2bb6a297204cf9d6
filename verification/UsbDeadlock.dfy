/** Who waits for whom in the USB service: every wait ends at a thread that can go on, unless setCallback(NULL) joins a
    worker that is about to take mLock (usb/usb/Usb.cpp:104-114, 170-204, 330-358, 404-442, 651-663, 740-755, 837-853). */
module UsbDeadlock {
  import opened Wrappers
  import opened Uevent
  import opened UsbProtocol
  import opened UsbInvariants
  import opened UsbLifecycle
  import opened UsbHandshake
  import opened UsbReachable
  import opened UsbRuns

  /** The lock a thread is about to take with pthread_mutex_lock, by its program point. */
  function Wants(pc: Pc): Option<Lock> {
    match pc
    case Switch(p) =>
      if p.LockRole? then Some(RoleSwitchLock)
      else if p.LockPartner? || p.Waking? then Some(PartnerLock)
      else if p.LockToNotify? then Some(CallbackLock)
      else None
    case Call(p) => if p.LockSection? || p.LockToSet? then Some(CallbackLock) else None
    case Work(p) =>
      if p.LockPartnerToSet? then Some(PartnerLock) else if p.LockToQuery? then Some(CallbackLock) else None
    case _ => None
  }

  /** The thread that thread t waits for: the owner of the lock it wants, or the worker it joins. */
  function WaitsFor(s: State, t: Thread): Option<Thread> {
    var pc := s.At(t);
    if Wants(pc).Some? then (if Wants(pc).value in s.owners then Some(s.owners[Wants(pc).value]) else None)
    else if pc == Call(JoinWorker) && s.PollLive() then Some(Worker(s.vars.poll.value))
    else None
  }

  ghost predicate CanGo(s: State, t: Thread) {
    exists c: Choice :: Step(s, t, c).Some?
  }

  predicate Blocks(pc: Pc, i: Instr) {
    && (i.Take? <==> Wants(pc).Some?) && (i.Take? ==> Wants(pc) == Some(i.l))
    && (i.Join? <==> pc == Call(JoinWorker))
    && (i.Stop? ==> pc == Idle || pc == Ended)
  }

  lemma SwitchBlocks(p: SwitchPc, c: Choice)
    ensures Blocks(Switch(p), SwitchProgram(p, c))
  {
  }

  lemma CallBlocks(p: CallPc, c: Choice)
    ensures Blocks(Call(p), CallProgram(p, c))
  {
  }

  lemma WorkBlocks(p: WorkPc, c: Choice)
    ensures Blocks(Work(p), WorkProgram(p, c))
  {
  }

  lemma ProgramBlocks(pc: Pc, c: Choice)
    ensures Blocks(pc, Program(pc, c))
  {
    match pc {
      case Switch(p) => SwitchBlocks(p, c);
      case Call(p) => CallBlocks(p, c);
      case Work(p) => WorkBlocks(p, c);
      case Idle =>
      case Ended =>
    }
    hide SwitchProgram, CallProgram, WorkProgram;
  }

  /** In any state a thread can go on exactly if it has not ended and waits for no other. */
  lemma GoesUnlessItWaits(s: State, t: Thread)
    ensures CanGo(s, t) <==> s.At(t) != Ended && WaitsFor(s, t) == None
  {
    hide SwitchProgram, CallProgram, WorkProgram, Wants, NextPcs, NextOwners, NextVars, NextEvents;
    forall c: Choice ensures Blocks(s.At(t), Program(s.At(t), c)) {
      ProgramBlocks(s.At(t), c);
    }
    if s.At(t) != Ended && WaitsFor(s, t) == None {
      var u: Thread := if SomeWaiter(s) then AWaiter(s) else t;
      var c := Choice(true, Call(LockSection(0)), u, "", []);
      assert Step(s, t, c).Some?;
    }
  }

  ghost function AWaiter(s: State): (u: Thread)
    requires SomeWaiter(s)
    ensures IsWaiting(s.At(u))
  {
    var u: Thread :| IsWaiting(s.At(u));
    u
  }

  /** Where the waits of a thread lead in at most n of them. */
  function Chain(s: State, t: Thread, n: nat): Thread
    decreases n
  {
    if n == 0 || WaitsFor(s, t) == None then t else Chain(s, WaitsFor(s, t).value, n - 1)
  }

  /** setCallback(NULL), with mLock, joins a worker that is at a given point. */
  predicate Joins(s: State, pc: Pc) {
    && CallbackLock in s.owners && s.At(s.owners[CallbackLock]) == Call(JoinWorker)
    && s.vars.poll.Some? && s.At(Worker(s.vars.poll.value)) == pc
  }

  /** setCallback(NULL), with mLock, waits for a worker that waits for mLock. */
  predicate Embrace(s: State) {
    Joins(s, Work(LockToQuery))
  }

  /** The order of the waits: mRoleSwitchLock before mLock and mPartnerLock, a join after mLock, and mPartnerLock last. */
  function Rank(pc: Pc): nat {
    if Wants(pc) == Some(RoleSwitchLock) then 4
    else if Wants(pc) == Some(CallbackLock) then 3
    else if pc == Call(JoinWorker) then 2
    else if Wants(pc) == Some(PartnerLock) then 1
    else 0
  }

  lemma HolderRanks(pc: Pc, l: Lock)
    requires Holds(pc, l)
    ensures Rank(pc) < match l case RoleSwitchLock => 4 case CallbackLock => 3 case PartnerLock => 1
  {
  }

  /** A wait leads to a thread that has not ended, and to a lower rank but in the one embrace. */
  lemma WaitsGoDown(s: State, t: Thread)
    requires LocksMatch(s) && WellTyped(s) && WaitsFor(s, t).Some?
    ensures var u := WaitsFor(s, t).value;
            s.At(u) != Ended && (Rank(s.At(u)) < Rank(s.At(t)) || (s.At(t) == Call(JoinWorker) && Embrace(s)))
  {
    var pc, u := s.At(t), WaitsFor(s, t).value;
    if Wants(pc).Some? {
      assert Holds(s.At(u), Wants(pc).value);
      HolderRanks(s.At(u), Wants(pc).value);
    } else {
      assert Holds(pc, CallbackLock);
      assert InWorker(s.At(u));
    }
    hide LocksMatch, Holds;
  }

  lemma {:induction false} ChainEnds(s: State, t: Thread, n: nat)
    requires LocksMatch(s) && WellTyped(s) && !Embrace(s) && Rank(s.At(t)) <= n && s.At(t) != Ended
    ensures WaitsFor(s, Chain(s, t, n)) == None && s.At(Chain(s, t, n)) != Ended
    decreases n
  {
    hide LocksMatch, WellTyped, Embrace, Wants;
    if WaitsFor(s, t).Some? {
      WaitsGoDown(s, t);
      ChainEnds(s, WaitsFor(s, t).value, n - 1);
    }
  }

  lemma {:induction false} EmbraceHasNoEnd(s: State, t: Thread, n: nat)
    requires Embrace(s) && (t == s.owners[CallbackLock] || t == Worker(s.vars.poll.value))
    ensures WaitsFor(s, Chain(s, t, n)).Some?
    decreases n
  {
    if n > 0 { EmbraceHasNoEnd(s, WaitsFor(s, t).value, n - 1); }
  }

  /** In every reachable state, following the waits of any thread that has not ended leads, in at most four, to a thread
      that can go on; there is one exception, and then it is the only one: the embrace. */
  lemma WaitsEnd(s: State)
    requires Reachable(s)
    ensures (forall t: Thread :: s.At(t) != Ended ==> CanGo(s, Chain(s, t, 4))) <==> !Embrace(s)
  {
    ReachableInvariant(s);
    hide Reachable, Lifecycle, Handshake, LocksMatch, WellTyped, CanGo, Wants, WaitsFor, Chain;
    forall t: Thread ensures CanGo(s, Chain(s, t, 4)) <==> s.At(Chain(s, t, 4)) != Ended && WaitsFor(s, Chain(s, t, 4)) == None {
      GoesUnlessItWaits(s, Chain(s, t, 4));
    }
    if Embrace(s) {
      var t := s.owners[CallbackLock];
      EmbraceHasNoEnd(s, t, 4);
      assert s.At(t) != Ended;
    } else {
      forall t: Thread | s.At(t) != Ended ensures CanGo(s, Chain(s, t, 4)) {
        ChainEnds(s, t, 4);
      }
    }
  }

  // ---------- The embrace ----------

  /** The two threads of an embrace cannot go on, and no step of another frees them. */
  lemma EmbraceStays(s: State, l: Label)
    requires Invariant(s) && Embrace(s) && Next(s, l).Some?
    ensures var s' := Next(s, l).value;
            Embrace(s') && s'.vars.poll == s.vars.poll && s'.owners[CallbackLock] == s.owners[CallbackLock]
  {
    match l {
      case Run(t, c) => StepKeepsEmbrace(s, t, c);
      case Signal(_, _) =>
    }
    hide Step, Invariant;
  }

  lemma StepKeepsEmbrace(s: State, t: Thread, c: Choice)
    requires Invariant(s) && Embrace(s) && Step(s, t, c).Some?
    ensures var s' := Step(s, t, c).value;
            Embrace(s') && s'.vars.poll == s.vars.poll && s'.owners[CallbackLock] == s.owners[CallbackLock]
  {
    EmbracedStand(s, t, c);
    StepKeepsJoin(s, t, c, Work(LockToQuery));
    hide Step, Invariant;
  }

  lemma EmbracedStand(s: State, t: Thread, c: Choice)
    requires Embrace(s) && Step(s, t, c).Some?
    ensures t != Worker(s.vars.poll.value)
  {
    assert CanGo(s, t);
    GoesUnlessItWaits(s, t);
    hide Step, CanGo;
  }

  /** While the joined worker does not step, its join goes on, and nothing but mPartnerUp changes among the variables. */
  lemma StepKeepsJoin(s: State, t: Thread, c: Choice, pc: Pc)
    requires Invariant(s) && Joins(s, pc) && pc != Ended && !IsWaiting(pc) && Step(s, t, c).Some?
    requires t != Worker(s.vars.poll.value)
    ensures var s' := Step(s, t, c).value;
            && Joins(s', pc) && s'.owners[CallbackLock] == s.owners[CallbackLock]
            && s'.vars == s.vars.(partnerUp := s'.vars.partnerUp)
  {
    var i, s' := Program(s.At(t), c), Step(s, t, c).value;
    var u := Other(s, i, c);
    JoinerStands(s, t, c, pc);
    OthersLackLock(s, t, pc);
    Accounts(s.At(t), c, CallbackLock);
    LifeSteps(s.At(t), c);
    assert !TouchesLife(i);
    QuietStep(s, t, c);
    Moves(s, t, i, c);
    hide Program, LocksMatch, WellTyped, Lifecycle, Handshake, Holds, NextPcs, NextEvents, NextVars, TouchesLife, PhaseOf;
    assert s'.At(s.owners[CallbackLock]) == s.At(s.owners[CallbackLock]);
    assert s'.At(Worker(s.vars.poll.value)) == s.At(Worker(s.vars.poll.value));
  }

  lemma JoinerStands(s: State, t: Thread, c: Choice, pc: Pc)
    requires Joins(s, pc) && pc != Ended && Step(s, t, c).Some?
    ensures t != s.owners[CallbackLock]
  {
    assert CanGo(s, t);
    GoesUnlessItWaits(s, t);
    hide Step, CanGo;
  }

  lemma OthersLackLock(s: State, t: Thread, pc: Pc)
    requires LocksMatch(s) && Joins(s, pc) && t != s.owners[CallbackLock]
    ensures !Holds(s.At(t), CallbackLock)
  {
    hide Holds, Joins;
    assert CallbackLock in s.owners by { JoinsHolds(s, pc); }
  }

  lemma JoinsHolds(s: State, pc: Pc)
    requires Joins(s, pc)
    ensures CallbackLock in s.owners
  {
  }

  /** Once in an embrace, its two threads stay where they are in every continuation of the run. */
  lemma {:induction false} EmbraceForever(run: seq<Label>, more: seq<Label>)
    requires After(run).Some? && Embrace(After(run).value) && After(run + more).Some?
    ensures var s, s' := After(run).value, After(run + more).value;
            Embrace(s') && s'.vars.poll == s.vars.poll && s'.owners[CallbackLock] == s.owners[CallbackLock]
  {
    hide Embrace, Next, Invariant;
    if more == [] {
      assert run + more == run;
    } else {
      var before := more[..|more| - 1];
      assert (run + more)[..|run + more| - 1] == run + before;
      EmbraceForever(run, before);
      RunKeepsInvariant(run + before);
      EmbraceStays(After(run + before).value, more[|more| - 1]);
    }
  }

  /** setCallback(NULL), up to the join. */
  function Unregister(b: Thread): seq<Label> {
    [Begin(b, Call(LockToSet(false))), Proceed(b), Proceed(b), Proceed(b)]
  }

  /** After a run, binder thread b is at a point of setCallback(NULL), or about to make it, and the worker at a given
      point. */
  ghost predicate Poised(run: seq<Label>, b: Thread, pc: Pc, p: nat, w: WorkPc) {
    After(run).Some? && var s := After(run).value;
    && b.Binder? && s.At(b) == pc && s.vars.poll == Some(p) && s.At(Worker(p)) == Work(w)
    && (if Holds(pc, CallbackLock) then CallbackLock in s.owners && s.owners[CallbackLock] == b else CallbackLock !in s.owners)
    && s.vars.callback == (pc == Idle || pc == Call(LockToSet(false)) || pc == Call(SetCallback(false)))
  }

  /** setCallback(NULL) of thread b has cleared the callback and come to the join, and the signal is pending. */
  ghost predicate JoinComes(run: seq<Label>, b: Thread, p: nat, w: WorkPc) {
    After(run).Some? && var s := After(run).value;
    Joins(s, Work(w)) && s.vars.poll == Some(p) && p in s.vars.signalled && s.owners[CallbackLock] == b && !s.vars.callback
  }

  lemma Enters(run: seq<Label>, b: Thread, p: nat, w: WorkPc)
    requires Poised(run, b, Idle, p, w)
    ensures Poised(run + [Begin(b, Call(LockToSet(false)))], b, Call(LockToSet(false)), p, w)
  {
    OneStepMore(run, b, Begin(b, Call(LockToSet(false))).c);
    hide After;
  }

  lemma Locks(run: seq<Label>, b: Thread, p: nat, w: WorkPc)
    requires Poised(run, b, Call(LockToSet(false)), p, w)
    ensures Poised(run + [Proceed(b)], b, Call(SetCallback(false)), p, w)
  {
    OneStepMore(run, b, Proceed(b).c);
    hide After;
  }

  lemma Clears(run: seq<Label>, b: Thread, p: nat, w: WorkPc)
    requires Poised(run, b, Call(SetCallback(false)), p, w)
    ensures Poised(run + [Proceed(b)], b, Call(KillWorker), p, w)
  {
    OneStepMore(run, b, Proceed(b).c);
    hide After;
  }

  lemma Kills(run: seq<Label>, b: Thread, p: nat, w: WorkPc)
    requires Poised(run, b, Call(KillWorker), p, w)
    ensures JoinComes(run + [Proceed(b)], b, p, w)
  {
    OneStepMore(run, b, Proceed(b).c);
    hide After;
  }

  /** Whenever a worker is alive and nobody holds mLock, setCallback(NULL) comes to join it, wherever it is. */
  lemma UnregisterJoins(run: seq<Label>, b: Thread, p: nat, w: WorkPc)
    requires After(run).Some? && b.Binder? && After(run).value.At(b) == Idle && CallbackLock !in After(run).value.owners
    requires var s := After(run).value; s.vars.poll == Some(p) && s.At(Worker(p)) == Work(w)
    ensures JoinComes(run + Unregister(b), b, p, w)
  {
    var r1 := run + [Begin(b, Call(LockToSet(false)))];
    var r2 := r1 + [Proceed(b)];
    var r3 := r2 + [Proceed(b)];
    assert run + Unregister(b) == r3 + [Proceed(b)];
    PoisedBefore(run, b, p, w);
    hide *;
    Enters(run, b, p, w);
    Locks(r1, b, p, w);
    Clears(r2, b, p, w);
    Kills(r3, b, p, w);
  }

  /** If the worker is about to take mLock for a query, that is an embrace. */
  lemma UnregisterEmbraces(run: seq<Label>, b: Thread)
    requires After(run).Some? && b.Binder? && After(run).value.At(b) == Idle && CallbackLock !in After(run).value.owners
    requires var s := After(run).value; s.vars.poll.Some? && s.At(Worker(s.vars.poll.value)) == Work(LockToQuery)
    ensures After(run + Unregister(b)).Some? && Embrace(After(run + Unregister(b)).value)
  {
    UnregisterJoins(run, b, After(run).value.vars.poll.value, LockToQuery);
    hide After, Unregister;
  }

  lemma PoisedBefore(run: seq<Label>, b: Thread, p: nat, w: WorkPc)
    requires After(run).Some? && b.Binder? && After(run).value.At(b) == Idle && CallbackLock !in After(run).value.owners
    requires var s := After(run).value; s.vars.poll == Some(p) && s.At(Worker(p)) == Work(w)
    ensures Poised(run, b, Idle, p, w)
  {
    RegisteredIfPolling(run);
    hide After;
  }

  lemma RegisteredIfPolling(run: seq<Label>)
    requires After(run).Some?
    ensures var s := After(run).value; CallbackLock !in s.owners && s.PollLive() ==> s.vars.callback
  {
    RunKeepsInvariant(run);
    hide After, Handshake, LocksMatch, WellTyped;
  }

  // ---------- An embrace from the start ----------

  const STATUS_RECORD := "DEVTYPE=typec_"

  lemma StatusRecordQueries()
    ensures Handled(Message([STATUS_RECORD])) == [StatusQuery]
  {
    HandlesTheRecords([STATUS_RECORD], "");
    assert Message([STATUS_RECORD]) + "" == Message([STATUS_RECORD]);
    hide Message, Handled;
    assert !IsPartnerAdded(STATUS_RECORD);
  }

  /** A registration, one status message and an unregistration, with no system call failing, can end in an embrace. */
  lemma EmbraceReachable()
    ensures var run := FirstMessage(Message([STATUS_RECORD])) + Unregister(Binder(0));
            After(run).Some? && Embrace(After(run).value)
  {
    StatusRecordQueries();
    var run := FirstMessage(Message([STATUS_RECORD]));
    FirstMessageReached(Message([STATUS_RECORD]), StatusQuery);
    assert On(run, Idle, Work(LockToQuery), REGISTERED);
    hide After, Embrace, FirstMessage, Unregister, Message, Handled;
    UnregisterEmbraces(run, Binder(0));
  }

  // ---------- Without setCallback(NULL) ----------

  predicate Unregistering(pc: Pc) {
    pc.Call? && (pc.k == LockToSet(false) || pc.k == SetCallback(false) || pc.k.KillWorker? || pc.k.JoinWorker?)
  }

  predicate NeverUnregisters(run: seq<Label>) {
    forall i :: 0 <= i < |run| && run[i].Run? ==> run[i].c.entry != Call(LockToSet(false))
  }

  lemma NotByItself(pc: Pc, c: Choice)
    requires !Unregistering(pc) && c.entry != Call(LockToSet(false))
    ensures var i := Program(pc, c);
            (!i.Stop? ==> !Unregistering(i.next)) && (Branches(i) ==> !Unregistering(i.otherwise))
  {
    match pc {
      case Switch(p) => SwitchLeavesSet(p, c);
      case Call(p) => CallLeavesSet(p, c);
      case Work(p) => WorkLeaves(p, c); WorkStays(p, c);
      case Idle =>
      case Ended =>
    }
    hide SwitchProgram, CallProgram, WorkProgram;
  }

  lemma SwitchLeavesSet(p: SwitchPc, c: Choice)
    ensures var i := SwitchProgram(p, c);
            !i.Stop? && !i.next.Call? && (Branches(i) ==> !i.otherwise.Call?)
  {
  }

  lemma CallLeavesSet(p: CallPc, c: Choice)
    requires !Unregistering(Call(p))
    ensures var i := CallProgram(p, c);
            !i.Stop? && !Unregistering(i.next) && (Branches(i) ==> !Unregistering(i.otherwise))
  {
  }

  lemma {:induction false} NoneUnregisters(run: seq<Label>, t: Thread)
    requires NeverUnregisters(run) && After(run).Some?
    ensures !Unregistering(After(run).value.At(t))
  {
    if run != [] {
      var before, l := run[..|run| - 1], run[|run| - 1];
      NoneUnregisters(before, t);
      var s := After(before).value;
      hide Program, After, NextPcs, NextOwners, NextVars, NextEvents, Enabled;
      match l {
        case Run(u, c) =>
          NoneUnregisters(before, u);
          NotByItself(s.At(u), c);
          Moves(s, u, Program(s.At(u), c), c);
        case Signal(_, _) =>
      }
    }
  }

  /** As long as no setCallback(NULL) is made, waiting never lasts: the waits of every thread lead to one that can
      go on. */
  lemma DeadlockFree(run: seq<Label>, t: Thread)
    requires NeverUnregisters(run) && After(run).Some? && After(run).value.At(t) != Ended
    ensures CanGo(After(run).value, Chain(After(run).value, t, 4))
  {
    var s := After(run).value;
    WaitsEnd(s);
    if Embrace(s) { NoneUnregisters(run, s.owners[CallbackLock]); }
    hide After, CanGo, Chain;
  }
}
