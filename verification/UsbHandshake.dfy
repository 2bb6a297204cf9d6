/** The role-switch handshake and the writes to port_type, over the history of events
    (usb/usb/Usb.cpp:295-365, 404-442, 730-756). */
module UsbHandshake {
  import opened Wrappers
  import opened UsbProtocol
  import opened UsbInvariants

  /** How far the switchMode call of a thread has come: mPartnerUp cleared, wait started, a partner record handled
      since then; spoiled if one was handled between the clearing and the wait. */
  datatype Progress = NoCall | Cleared | Waited | Served | Spoiled

  function Observe(g: Progress, t: Thread, e: Event): Progress {
    match e.what
    case PartnerUp(true) => if g == Waited then Served else if g == Cleared then Spoiled else g
    case PartnerUp(false) => if e.t == t then Cleared else g
    case WaitStarted => if e.t == t && g == Cleared then Waited else g
    case ModeReturned(_) => if e.t == t then NoCall else g
    case _ => g
  }

  function Monitor(log: seq<Event>, t: Thread): Progress {
    if log == [] then NoCall else Observe(Monitor(log[..|log| - 1], t), t, log[|log| - 1])
  }

  /** Who holds mRoleSwitchLock, by the history alone. */
  function Holder(log: seq<Event>): Option<Thread> {
    if log == [] then None
    else HolderAfter(Holder(log[..|log| - 1]), log[|log| - 1])
  }

  function HolderAfter(h: Option<Thread>, e: Event): Option<Thread> {
    if e.what == Locked(RoleSwitchLock) then Some(e.t)
    else if e.what.Unlocked? && e.what.l == RoleSwitchLock then None
    else h
  }

  datatype Write = Write(t: Thread, port: Port, text: PortType)

  /** The last write to any port_type node since mRoleSwitchLock was last taken. */
  function LastWrite(log: seq<Event>): Option<Write> {
    if log == [] then None
    else LastWriteAfter(LastWrite(log[..|log| - 1]), log[|log| - 1])
  }

  function LastWriteAfter(w: Option<Write>, e: Event): Option<Write> {
    if e.what.PortTypeWrite? then Some(Write(e.t, e.what.port, e.what.text))
    else if e.what == Locked(RoleSwitchLock) then None
    else w
  }

  /** What the last write to port_type must be when a mode switch reports an outcome. */
  function FinalWrite(t: Thread, o: Outcome): Write {
    Write(t, o.port, if o.ok then Role else Dual)
  }

  /** What an event must find before it. */
  predicate EventOk(before: seq<Event>, e: Event) {
    match e.what
    case ModeReturned(ok) => ok ==> Monitor(before, e.t) == Served
    case PartnerUp(up) => up ==> e.t.Worker?
    case PortTypeWrite(_, _) => Holder(before) == Some(e.t)
    case Locked(l) => l == RoleSwitchLock ==> Holder(before) == None
    case Unlocked(l, done) => l == RoleSwitchLock ==> Holder(before) == Some(e.t) && Reports(before, e.t, done)
    case WaitStarted => true
    case Received(_) => true
    case Noted(_) => true
  }

  predicate Reports(before: seq<Event>, t: Thread, done: Option<Outcome>) {
    done.Some? && done.value.mode ==> LastWrite(before) == Some(FinalWrite(t, done.value))
  }

  predicate LogOk(log: seq<Event>) {
    forall r :: 0 <= r < |log| ==> EventOk(log[..r], log[r])
  }

  /** What holds of a thread at a point of switchRole: the progress of its handshake against mPartnerUp, and the last
      write to port_type. */
  predicate SwitchOk(t: Thread, pc: SwitchPc, up: bool, g: Progress, w: Option<Write>) {
    match pc
    case WriteRole(_) => g == Cleared && !up
    case SeeWrite(p) => g == Cleared && !up && w == Some(Write(t, p, Role))
    case StartWait(p) => (g == Cleared || g == Waited) && !up && w == Some(Write(t, p, Role))
    case Waiting(p) => g == (if up then Served else Waited) && w == Some(Write(t, p, Role))
    case Waking(p, _) => g == (if up then Served else Waited) && w == Some(Write(t, p, Role))
    case CheckPartnerUp(p, _) => g == (if up then Served else Waited) && w == Some(Write(t, p, Role))
    case UnlockPartner(p, ok) => (ok ==> g == Served) && w == Some(Write(t, p, Role))
    case ReturnMode(p, ok) => (ok ==> g == Served) && w == Some(FinalWrite(t, Outcome(p, true, ok)))
    case LockToNotify(o) => o.mode ==> w == Some(FinalWrite(t, o))
    case NotifySwitch(o) => o.mode ==> w == Some(FinalWrite(t, o))
    case UnlockNotified(o) => o.mode ==> w == Some(FinalWrite(t, o))
    case UnlockRole(o) => o.mode ==> w == Some(FinalWrite(t, o))
    case _ => true
  }

  predicate ThreadOk(t: Thread, pc: Pc, up: bool, g: Progress, w: Option<Write>) {
    pc.Switch? ==> SwitchOk(t, pc.s, up, g, w)
  }

  ghost predicate Handshake(s: State) {
    && LogOk(s.log)
    && Holder(s.log) == (if RoleSwitchLock in s.owners then Some(s.owners[RoleSwitchLock]) else None)
    && forall t: Thread :: ThreadOk(t, s.At(t), s.vars.partnerUp, Monitor(s.log, t), LastWrite(s.log))
  }

  // ---------- One event more ----------

  lemma OneMore(log: seq<Event>, e: Event)
    ensures forall t :: Monitor(log + [e], t) == Observe(Monitor(log, t), t, e)
    ensures Holder(log + [e]) == HolderAfter(Holder(log), e)
    ensures LastWrite(log + [e]) == LastWriteAfter(LastWrite(log), e)
    ensures LogOk(log) && EventOk(log, e) ==> LogOk(log + [e])
  {
    var more := log + [e];
    assert more[..|more| - 1] == log;
    hide EventOk;
    forall r | 0 <= r < |log| ensures more[..r] == log[..r] && more[r] == log[r] {
    }
  }

  // ---------- What the program does ----------

  /** The steps that write mPartnerUp or port_type, and those that report, by program point. */
  predicate Disciplined(pc: Pc, i: Instr) {
    && (i.AssignPartnerUp? ==> Holds(pc, PartnerLock) && if i.up then InWorker(pc) else Holds(pc, RoleSwitchLock))
    && (i.WritePortType? ==> Holds(pc, RoleSwitchLock))
    && (i.Return? ==> pc.Switch? && pc.s.ReturnMode? && i.ok == pc.s.ok)
    && (i.Drop? && i.l == RoleSwitchLock && i.done.Some? ==> pc.Switch? && pc.s.UnlockRole? && i.done.value == pc.s.outcome)
    && (i.Drop? && i.done.Some? ==> i.l == RoleSwitchLock)
  }

  lemma ProgramDisciplined(pc: Pc, c: Choice)
    ensures Disciplined(pc, Program(pc, c))
  {
    match pc {
      case Switch(p) => SwitchDisciplined(p, c);
      case Call(p) => CallDisciplined(p, c);
      case Work(p) => WorkDisciplined(p, c);
      case Idle =>
      case Ended =>
    }
    hide SwitchProgram, CallProgram, WorkProgram;
  }

  lemma SwitchDisciplined(p: SwitchPc, c: Choice)
    ensures Disciplined(Switch(p), SwitchProgram(p, c))
  {
  }

  lemma CallDisciplined(p: CallPc, c: Choice)
    ensures Disciplined(Call(p), CallProgram(p, c))
  {
  }

  lemma WorkDisciplined(p: WorkPc, c: Choice)
    ensures Disciplined(Work(p), WorkProgram(p, c))
  {
  }

  /** The event an instruction leaves, if any. */
  function EventOf(s: State, t: Thread, i: Instr): Option<Event> {
    var es := NextEvents(s, t, i);
    if es == [] then None else Some(es[0])
  }

  function ProgressAfter(g: Progress, x: Thread, e: Option<Event>): Progress {
    match e case None => g case Some(ev) => Observe(g, x, ev)
  }

  function WriteAfter(w: Option<Write>, e: Option<Event>): Option<Write> {
    match e case None => w case Some(ev) => LastWriteAfter(w, ev)
  }

  /** The thread that steps in switchRole goes from what holds at its point to what holds at the next. */
  lemma SwitchStepOk(s: State, t: Thread, p: SwitchPc, c: Choice, g: Progress, w: Option<Write>)
    requires SwitchOk(t, p, s.vars.partnerUp, g, w)
    ensures var i := SwitchProgram(p, c);
            var e := EventOf(s, t, i);
            ThreadOk(t, NextPc(s, i, c), NextVars(s, i, c).partnerUp, ProgressAfter(g, t, e), WriteAfter(w, e))
  {
  }

  /** Outside switchRole a step leads into it only at its start. */
  lemma OtherStepOk(pc: Pc, c: Choice)
    requires !pc.Switch?
    ensures var i := Program(pc, c);
            && (!i.Stop? && i.next.Switch? ==> i.next.s.LockRole?)
            && (Branches(i) && i.otherwise.Switch? ==> i.otherwise.s.LockRole?)
  {
    match pc {
      case Call(p) => CallLeaves(p, c);
      case Work(p) => WorkLeaves(p, c);
      case Idle =>
      case Ended =>
    }
    hide SwitchProgram, CallProgram, WorkProgram;
  }

  lemma CallLeaves(p: CallPc, c: Choice)
    ensures var i := CallProgram(p, c);
            !i.Stop? && !i.next.Switch? && (Branches(i) ==> !i.otherwise.Switch?)
  {
  }

  lemma WorkLeaves(p: WorkPc, c: Choice)
    ensures var i := WorkProgram(p, c);
            !i.Stop? && !i.next.Switch? && (Branches(i) ==> !i.otherwise.Switch?)
  {
  }

  /** A step of t changes nothing that holds of a thread x elsewhere: what it writes is under a lock x holds too. */
  lemma BystanderOk(s: State, t: Thread, i: Instr, c: Choice, x: Thread, p: SwitchPc, g: Progress, w: Option<Write>)
    requires x != t && Disciplined(s.At(t), i) && SwitchOk(x, p, s.vars.partnerUp, g, w)
    requires forall l: Lock :: !(Holds(s.At(t), l) && SwitchHolds(p, l))
    requires Takes(i, RoleSwitchLock) && EventOf(s, t, i).Some? ==> p.LockRole?
    ensures var e := EventOf(s, t, i);
            SwitchOk(x, p, NextVars(s, i, c).partnerUp, ProgressAfter(g, x, e), WriteAfter(w, e))
  {
    assert !(Holds(s.At(t), RoleSwitchLock) && SwitchHolds(p, RoleSwitchLock));
    assert !(Holds(s.At(t), PartnerLock) && SwitchHolds(p, PartnerLock));
    hide Holds;
  }

  // ---------- A step keeps all of it ----------

  lemma LogGrows(s: State, t: Thread, i: Instr)
    ensures var e, log := EventOf(s, t, i), s.log + NextEvents(s, t, i);
            && (forall x: Thread :: Monitor(log, x) == ProgressAfter(Monitor(s.log, x), x, e))
            && LastWrite(log) == WriteAfter(LastWrite(s.log), e)
            && Holder(log) == (match e case None => Holder(s.log) case Some(ev) => HolderAfter(Holder(s.log), ev))
            && (LogOk(s.log) && (e.Some? ==> EventOk(s.log, e.value)) ==> LogOk(log))
  {
    var es := NextEvents(s, t, i);
    if es == [] {
      assert s.log + es == s.log;
    } else {
      assert es == [es[0]];
      OneMore(s.log, es[0]);
    }
    hide NextEvents, Monitor, LastWrite, Holder, LogOk, EventOk, Observe, HolderAfter, LastWriteAfter;
  }

  /** The event of a step finds before it what it must. */
  lemma EventIsOk(s: State, t: Thread, i: Instr, c: Choice)
    requires WellTyped(s) && LocksMatch(s) && Handshake(s) && Enabled(s, i, c)
    requires Disciplined(s.At(t), i) && AccountsFor(s.At(t), i, RoleSwitchLock)
    ensures EventOf(s, t, i).Some? ==> EventOk(s.log, EventOf(s, t, i).value)
  {
    hide *;
    if i.Drop? || i.Return? {
      EndIsOk(s, t, i);
    } else {
      OtherIsOk(s, t, i, c);
    }
  }

  lemma EndIsOk(s: State, t: Thread, i: Instr)
    requires LocksMatch(s) && Handshake(s) && (i.Drop? || i.Return?)
    requires Disciplined(s.At(t), i) && AccountsFor(s.At(t), i, RoleSwitchLock)
    ensures EventOf(s, t, i).Some? ==> EventOk(s.log, EventOf(s, t, i).value)
  {
    assert Holds(s.At(t), RoleSwitchLock) ==> Holder(s.log) == Some(t);
    if (i.Drop? && i.done.Some?) || i.Return? { ReportIsOk(s, t, i); }
    hide Holds, LocksMatch, Handshake, Monitor, LastWrite, Holder, SwitchOk, Disciplined;
  }

  lemma OtherIsOk(s: State, t: Thread, i: Instr, c: Choice)
    requires WellTyped(s) && LocksMatch(s) && Handshake(s) && Enabled(s, i, c) && !i.Drop? && !i.Return?
    requires Disciplined(s.At(t), i) && AccountsFor(s.At(t), i, RoleSwitchLock)
    ensures EventOf(s, t, i).Some? ==> EventOk(s.log, EventOf(s, t, i).value)
  {
    assert Holds(s.At(t), RoleSwitchLock) ==> Holder(s.log) == Some(t);
    assert InWorker(s.At(t)) ==> t.Worker?;
    hide Holds, LocksMatch, Handshake, WellTyped, Monitor, LastWrite, Holder, InWorker, SwitchOk;
  }

  lemma ReportIsOk(s: State, t: Thread, i: Instr)
    requires Handshake(s) && Disciplined(s.At(t), i) && ((i.Drop? && i.done.Some?) || i.Return?)
    ensures i.Return? ==> i.ok ==> Monitor(s.log, t) == Served
    ensures i.Drop? ==> Reports(s.log, t, i.done)
  {
    assert ThreadOk(t, s.At(t), s.vars.partnerUp, Monitor(s.log, t), LastWrite(s.log));
    hide Holds, LogOk, Monitor, LastWrite, Holder;
  }

  /** The history knows who holds mRoleSwitchLock. */
  lemma HolderFollows(s: State, t: Thread, i: Instr)
    requires AccountsFor(s.At(t), i, RoleSwitchLock) && LocksMatch(s)
    requires i.Take? ==> i.l !in s.owners
    requires Holder(s.log) == if RoleSwitchLock in s.owners then Some(s.owners[RoleSwitchLock]) else None
    ensures var owners, e := NextOwners(s, t, i), EventOf(s, t, i);
            (match e case None => Holder(s.log) case Some(ev) => HolderAfter(Holder(s.log), ev))
            == if RoleSwitchLock in owners then Some(owners[RoleSwitchLock]) else None
  {
    hide Holds, LocksMatch, Holder;
  }

  /** What holds of each thread after a step. */
  lemma ThreadStaysOk(s: State, t: Thread, c: Choice, x: Thread)
    requires LocksMatch(s) && WellTyped(s) && Handshake(s) && Step(s, t, c).Some?
    ensures var s', e := Step(s, t, c).value, EventOf(s, t, Program(s.At(t), c));
            ThreadOk(x, s'.At(x), s'.vars.partnerUp, ProgressAfter(Monitor(s.log, x), x, e), WriteAfter(LastWrite(s.log), e))
  {
    var i := Program(s.At(t), c);
    var s', u := Step(s, t, c).value, Other(s, i, c);
    Moves(s, t, i, c);
    assert ThreadOk(x, s.At(x), s.vars.partnerUp, Monitor(s.log, x), LastWrite(s.log));
    ProgramDisciplined(s.At(t), c);
    if x == t {
      if s.At(t).Switch? {
        SwitchStepOk(s, t, s.At(t).s, c, Monitor(s.log, x), LastWrite(s.log));
      } else {
        OtherStepOk(s.At(t), c);
        EntersAtStart(s, i, c);
      }
    } else if s.At(x).Switch? {
      forall l: Lock ensures !(Holds(s.At(t), l) && SwitchHolds(s.At(x).s, l)) {
        Exclusive(s, t, x, l);
        assert Holds(s.At(x), l) == SwitchHolds(s.At(x).s, l);
      }
      TakesFree(s, t, i, c, x);
      BystanderOk(s, t, i, c, x, s.At(x).s, Monitor(s.log, x), LastWrite(s.log));
      if u.Some? && x == u.value.0 {
        WokenOk(s, i, c);
      }
    } else if u.Some? && x == u.value.0 {
      WokenOk(s, i, c);
    }
    hide Program, Monitor, LastWrite, NextPcs, NextOwners, NextVars, NextEvents, Disciplined, SwitchOk, Observe, LogOk, Holds;
  }

  /** mRoleSwitchLock is taken only while no thread is past taking it. */
  lemma TakesFree(s: State, t: Thread, i: Instr, c: Choice, x: Thread)
    requires LocksMatch(s) && Enabled(s, i, c) && s.At(x).Switch?
    ensures Takes(i, RoleSwitchLock) && EventOf(s, t, i).Some? ==> s.At(x).s.LockRole?
  {
    if Takes(i, RoleSwitchLock) && EventOf(s, t, i).Some? {
      assert RoleSwitchLock !in s.owners;
      assert !Holds(s.At(x), RoleSwitchLock);
    }
  }

  lemma EntersAtStart(s: State, i: Instr, c: Choice)
    requires !i.Stop? && (i.next.Switch? ==> i.next.s.LockRole?)
    requires Branches(i) && i.otherwise.Switch? ==> i.otherwise.s.LockRole?
    ensures NextPc(s, i, c).Switch? ==> NextPc(s, i, c).s.LockRole?
  {
  }

  /** The other thread of a step either starts as a worker or goes from waiting to waking. */
  lemma WokenOk(s: State, i: Instr, c: Choice)
    requires Other(s, i, c).Some?
    ensures var u := Other(s, i, c).value;
            u.1.Switch? ==>
              && s.At(u.0).Switch?
              && forall x, up, g, w :: SwitchOk(x, s.At(u.0).s, up, g, w) ==> SwitchOk(x, u.1.s, up, g, w)
  {
  }

  lemma StepKeepsHandshake(s: State, t: Thread, c: Choice)
    requires LocksMatch(s) && WellTyped(s) && Handshake(s) && Step(s, t, c).Some?
    ensures Handshake(Step(s, t, c).value)
  {
    var i := Program(s.At(t), c);
    var s' := Step(s, t, c).value;
    assert s'.log == s.log + NextEvents(s, t, i) && s'.owners == NextOwners(s, t, i);
    assert i.Take? ==> i.l !in s.owners;
    ProgramDisciplined(s.At(t), c);
    Accounts(s.At(t), c, RoleSwitchLock);
    EventIsOk(s, t, i, c);
    LogGrows(s, t, i);
    HolderFollows(s, t, i);
    forall x: Thread ensures ThreadOk(x, s'.At(x), s'.vars.partnerUp, Monitor(s'.log, x), LastWrite(s'.log)) {
      ThreadStaysOk(s, t, c, x);
    }
    hide Program, Step, Monitor, LastWrite, Holder, LogOk, EventOk, NextEvents, NextOwners, ThreadOk;
  }

  lemma DeliverKeepsHandshake(s: State, w: nat, interrupts: bool)
    requires Handshake(s) && Deliver(s, w, interrupts).Some?
    ensures Handshake(Deliver(s, w, interrupts).value)
  {
    var s' := Deliver(s, w, interrupts).value;
    assert s'.log == s.log && s'.owners == s.owners && s'.vars.partnerUp == s.vars.partnerUp;
    forall x: Thread ensures s'.At(x) == s.At(x) || s'.At(x) == Work(CheckDestroy) {
    }
    hide Deliver, Monitor, LastWrite, Holder, LogOk, SwitchOk;
    forall x: Thread ensures ThreadOk(x, s'.At(x), s'.vars.partnerUp, Monitor(s'.log, x), LastWrite(s'.log)) {
      assert ThreadOk(x, s.At(x), s.vars.partnerUp, Monitor(s.log, x), LastWrite(s.log));
    }
  }
}
