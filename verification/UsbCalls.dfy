/** What every call and every message leaves in the history, event by event: whole switchRole calls, calls that only take
    mLock, and the worker's handling of a uevent (usb/usb/Usb.cpp:104-207, 314-445, 648-682, 714-763). */
module UsbCalls {
  import opened Wrappers
  import opened Uevent
  import opened UsbProtocol
  import opened UsbInvariants
  import opened UsbLifecycle
  import opened UsbHandshake
  import opened UsbReachable
  import opened UsbReceipts

  // ---------- What a call should leave ----------

  /** How a mode switch can go; a wait may be woken in vain any number of times first. */
  datatype Way = CannotOpen | CannotWrite | Expires(vain: nat) | Succeeds(vain: nat)

  function InVain(n: nat): seq<What> {
    if n == 0 then [] else InVain(n - 1) + [WaitStarted, Locked(PartnerLock), Noted(Woken(false))]
  }

  /** A mode switch up to its wait. */
  function Entered(p: Port): seq<What> {
    [Noted(Opened(p, true)), Locked(PartnerLock), PartnerUp(false), PortTypeWrite(p, Role), Noted(RoleWritten(p, true))]
  }

  function Attempt(p: Port, way: Way): seq<What> {
    match way
    case CannotOpen => [Noted(Opened(p, false))]
    case CannotWrite =>
      [Noted(Opened(p, true)), Locked(PartnerLock), PartnerUp(false), PortTypeWrite(p, Role), Noted(RoleWritten(p, false)),
       Unlocked(PartnerLock, None)]
    case Expires(n) =>
      Entered(p) + InVain(n) + [WaitStarted, Locked(PartnerLock), Noted(TimedOut), Unlocked(PartnerLock, None)]
    case Succeeds(n) =>
      Entered(p) + InVain(n) + [WaitStarted, Locked(PartnerLock), Noted(Woken(true)), Unlocked(PartnerLock, None)]
  }

  /** switchMode, from the opening of the node to its return: "dual" is written unless a partner came. */
  function ModeSwitch(p: Port, way: Way): seq<What> {
    Attempt(p, way) + (if way.Succeeds? then [] else [PortTypeWrite(p, Dual)]) + [ModeReturned(way.Succeeds?)]
  }

  function Asked(p: Port, mode: bool): seq<What> {
    [Noted(Begun(Switch(LockRole(p, mode)))), Locked(RoleSwitchLock)]
  }

  function Report(o: Outcome, told: bool): seq<What> {
    [Locked(CallbackLock), Noted(Notified(o, told)), Unlocked(CallbackLock, None), Unlocked(RoleSwitchLock, Some(o))]
  }

  /** What has happened before switchRole reports an outcome. */
  ghost predicate Settled(ws: seq<What>, o: Outcome) {
    if o.mode then exists way: Way :: way.Succeeds? == o.ok && ws == Asked(o.port, true) + ModeSwitch(o.port, way)
    else ws == Asked(o.port, false) + [Noted(NodeWritten(o.port, o.ok))]
  }

  ghost predicate IsSwitchCall(ws: seq<What>) {
    exists b, o, told :: Settled(b, o) && ws == b + Report(o, told)
  }

  function Sections(n: nat): seq<What> {
    if n == 0 then [] else Sections(n - 1) + [Locked(CallbackLock), Unlocked(CallbackLock, None)]
  }

  ghost predicate IsSectionCall(ws: seq<What>) {
    exists n: nat :: ws == [Noted(Begun(Call(LockSection(n))))] + Sections(n + 1)
  }

  ghost predicate IsSetCall(ws: seq<What>) {
    exists r: bool :: ws == [Noted(Begun(Call(LockToSet(r)))), Locked(CallbackLock), Unlocked(CallbackLock, None)]
  }

  ghost predicate IsCall(ws: seq<What>) {
    IsSwitchCall(ws) || IsSectionCall(ws) || IsSetCall(ws)
  }

  // ---------- What a message should leave ----------

  function Records(n: nat): seq<What> {
    if n == 0 then [] else Records(n - 1) + [Locked(PartnerLock), PartnerUp(true), Unlocked(PartnerLock, None)]
  }

  /** The lookups of the first ports, and "dual" for each that has no partner. */
  function Lookups(ports: seq<Port>, partners: seq<bool>): seq<What>
    requires |partners| <= |ports|
  {
    if partners == [] then []
    else
      var n := |partners| - 1;
      Lookups(ports, partners[..n]) + Lookup(ports[n], partners[n])
  }

  function Lookup(p: Port, partner: bool): seq<What> {
    [Noted(LookedUp(p, partner))] + if partner then [] else [PortTypeWrite(p, Dual)]
  }

  /** What becomes of a status query: mRoleSwitchLock is taken or not. */
  datatype Visit = NoQuery | Refused(ports: seq<Port>) | Restored(ports: seq<Port>, partners: seq<bool>)

  function QueryEvents(ports: seq<Port>): seq<What> {
    [Locked(CallbackLock), Noted(Queried(ports)), Unlocked(CallbackLock, None)]
  }

  predicate Proper(all: seq<Action>, v: Visit) {
    && (v.NoQuery? <==> StatusQuery !in all)
    && (v.Restored? ==> |v.partners| == |v.ports|)
  }

  function VisitEvents(v: Visit): seq<What>
    requires v.Restored? ==> |v.partners| == |v.ports|
  {
    match v
    case NoQuery => []
    case Refused(ports) => QueryEvents(ports)
    case Restored(ports, partners) =>
      QueryEvents(ports) + [Locked(RoleSwitchLock)] + Lookups(ports, partners) + [Unlocked(RoleSwitchLock, None)]
  }

  /** A message with its actions: the partner records before a status query, and then the query. */
  function MessageEvents(all: seq<Action>, v: Visit): seq<What>
    requires Proper(all, v)
  {
    [Received(all)] + Records(Count(all)) + VisitEvents(v)
  }

  ghost predicate IsMessage(ws: seq<What>) {
    exists all, v :: Proper(all, v) && ws == MessageEvents(all, v)
  }

  /** A message whose query got mRoleSwitchLock. */
  ghost predicate IsRestoring(ws: seq<What>) {
    exists all, v: Visit :: Proper(all, v) && v.Restored? && ws == MessageEvents(all, v)
  }

  // ---------- What has happened since a call or a message began ----------

  predicate Opens(w: What) {
    w.Received? || (w.Noted? && (w.n.Begun? || w.n.Started? || w.n.PollFailed?))
  }

  function SinceAfter(ws: seq<What>, t: Thread, e: Event): seq<What> {
    if e.t != t then ws else if Opens(e.what) then [e.what] else ws + [e.what]
  }

  /** A thread's own events since its last call or message began. */
  function Since(log: seq<Event>, t: Thread): seq<What> {
    if log == [] then [] else SinceAfter(Since(log[..|log| - 1], t), t, log[|log| - 1])
  }

  /** A part of a mode switch: up to an attempt to wait. */
  ghost predicate Entering(ws: seq<What>, p: Port, tail: seq<What>) {
    exists n: nat :: ws == Asked(p, true) + Entered(p) + InVain(n) + tail
  }

  ghost predicate Attempted(ws: seq<What>, p: Port, ok: bool, tail: seq<What>) {
    exists way: Way :: way.Succeeds? == ok && ws == Asked(p, true) + Attempt(p, way) + tail
  }

  ghost predicate Reporting(ws: seq<What>, o: Outcome, n: nat)
    requires n <= 3
  {
    exists b, told: bool :: Settled(b, o) && ws == b + Report(o, told)[..n]
  }

  /** What a thread has done by each point of switchRole. */
  ghost predicate SwitchTrace(pc: SwitchPc, ws: seq<What>) {
    match pc
    case LockRole(p, mode) => ws == [Noted(Begun(Switch(LockRole(p, mode))))]
    case WriteRoleNode(p) => ws == Asked(p, false)
    case OpenPortType(p) => ws == Asked(p, true)
    case LockPartner(p) => ws == Asked(p, true) + Entered(p)[..1]
    case ClearPartnerUp(p) => ws == Asked(p, true) + Entered(p)[..2]
    case WriteRole(p) => ws == Asked(p, true) + Entered(p)[..3]
    case SeeWrite(p) => ws == Asked(p, true) + Entered(p)[..4]
    case StartWait(p) => Entering(ws, p, [])
    case Waiting(p) => Entering(ws, p, [WaitStarted])
    case Waking(p, _) => Entering(ws, p, [WaitStarted])
    case CheckPartnerUp(p, _) => Entering(ws, p, [WaitStarted, Locked(PartnerLock)])
    case UnlockPartner(p, ok) => Attempted(ws + [Unlocked(PartnerLock, None)], p, ok, [])
    case SwitchToDrp(p) => Attempted(ws, p, false, [])
    case ReturnMode(p, ok) => Attempted(ws, p, ok, if ok then [] else [PortTypeWrite(p, Dual)])
    case LockToNotify(o) => Reporting(ws, o, 0)
    case NotifySwitch(o) => Reporting(ws, o, 1)
    case UnlockNotified(o) => Reporting(ws, o, 2)
    case UnlockRole(o) => Reporting(ws, o, 3)
  }

  lemma Appended(a: seq<What>, all: seq<What>, n: nat)
    requires n < |all|
    ensures a + all[..n] + [all[n]] == a + all[..n + 1]
  {
    assert all[..n + 1] == all[..n] + [all[n]];
  }

  lemma EnteredAll(p: Port)
    ensures Asked(p, true) + Entered(p)[..4] + [Noted(RoleWritten(p, true))] == Asked(p, true) + Entered(p) + InVain(0) + []
  {
    Appended(Asked(p, true), Entered(p), 4);
    assert Entered(p)[..5] == Entered(p);
  }

  lemma EnterMore(ws: seq<What>, p: Port, tail: seq<What>, w: What)
    requires Entering(ws, p, tail)
    ensures Entering(ws + [w], p, tail + [w])
  {
    hide Asked, Entered, InVain;
    var n: nat :| ws == Asked(p, true) + Entered(p) + InVain(n) + tail;
    assert ws + [w] == Asked(p, true) + Entered(p) + InVain(n) + (tail + [w]);
  }

  lemma WokenInVain(ws: seq<What>, p: Port)
    requires Entering(ws, p, [WaitStarted, Locked(PartnerLock)])
    ensures Entering(ws + [Noted(Woken(false))], p, [])
  {
    hide Asked, Entered;
    var n: nat :| ws == Asked(p, true) + Entered(p) + InVain(n) + [WaitStarted, Locked(PartnerLock)];
    var e := Asked(p, true) + Entered(p);
    assert ws + [Noted(Woken(false))] == e + (InVain(n) + [WaitStarted, Locked(PartnerLock), Noted(Woken(false))]) + [];
    assert InVain(n + 1) == InVain(n) + [WaitStarted, Locked(PartnerLock), Noted(Woken(false))];
  }

  /** The wait has ended for good, by a timeout or with a partner. */
  lemma WaitEnds(ws: seq<What>, p: Port, ok: bool)
    requires Entering(ws, p, [WaitStarted, Locked(PartnerLock)])
    ensures var end := Noted(if ok then Woken(true) else TimedOut);
            Attempted(ws + [end] + [Unlocked(PartnerLock, None)], p, ok, [])
  {
    var n: nat :| ws == Asked(p, true) + Entered(p) + InVain(n) + [WaitStarted, Locked(PartnerLock)];
    var end := Noted(if ok then Woken(true) else TimedOut);
    var way := if ok then Succeeds(n) else Expires(n);
    hide Asked, Entered, InVain;
    assert [WaitStarted, Locked(PartnerLock)] + [end] + [Unlocked(PartnerLock, None)]
        == [WaitStarted, Locked(PartnerLock), end, Unlocked(PartnerLock, None)];
    assert ws + [end] + [Unlocked(PartnerLock, None)] == Asked(p, true) + Attempt(p, way) + [];
  }

  lemma WriteFails(ws: seq<What>, p: Port)
    requires ws == Asked(p, true) + Entered(p)[..4]
    ensures Attempted(ws + [Noted(RoleWritten(p, false))] + [Unlocked(PartnerLock, None)], p, false, [])
  {
    hide Asked;
    assert ws + [Noted(RoleWritten(p, false))] + [Unlocked(PartnerLock, None)] == Asked(p, true) + Attempt(p, CannotWrite) + [];
  }

  lemma OpenFails(ws: seq<What>, p: Port)
    requires ws == Asked(p, true)
    ensures Attempted(ws + [Noted(Opened(p, false))], p, false, [])
  {
    hide Asked;
    assert ws + [Noted(Opened(p, false))] == Asked(p, true) + Attempt(p, CannotOpen) + [];
  }

  lemma DualWritten(ws: seq<What>, p: Port)
    requires Attempted(ws, p, false, [])
    ensures Attempted(ws + [PortTypeWrite(p, Dual)], p, false, [PortTypeWrite(p, Dual)])
  {
    hide Asked, Attempt;
    var way: Way :| !way.Succeeds? && ws == Asked(p, true) + Attempt(p, way) + [];
    assert ws + [PortTypeWrite(p, Dual)] == Asked(p, true) + Attempt(p, way) + [PortTypeWrite(p, Dual)];
  }

  lemma ModeReturns(ws: seq<What>, p: Port, ok: bool)
    requires Attempted(ws, p, ok, if ok then [] else [PortTypeWrite(p, Dual)])
    ensures Settled(ws + [ModeReturned(ok)], Outcome(p, true, ok))
  {
    hide Asked, Attempt;
    var tail := if ok then [] else [PortTypeWrite(p, Dual)];
    var way: Way :| way.Succeeds? == ok && ws == Asked(p, true) + Attempt(p, way) + tail;
    assert ws + [ModeReturned(ok)] == Asked(p, true) + (Attempt(p, way) + tail + [ModeReturned(way.Succeeds?)]);
    assert ModeSwitch(p, way) == Attempt(p, way) + tail + [ModeReturned(way.Succeeds?)];
  }

  lemma ReportBegins(ws: seq<What>, o: Outcome)
    requires Settled(ws, o)
    ensures Reporting(ws, o, 0)
  {
    hide Settled;
    assert ws == ws + Report(o, true)[..0];
  }

  lemma ReportMore(ws: seq<What>, o: Outcome, n: nat, w: What)
    requires n < 3 && n != 1 && Reporting(ws, o, n) && w == Report(o, true)[n]
    ensures Reporting(ws + [w], o, n + 1)
  {
    hide Settled;
    var b, told: bool :| Settled(b, o) && ws == b + Report(o, told)[..n];
    assert Report(o, told)[n] == w;
    hide Report;
    Appended(b, Report(o, told), n);
  }

  lemma ReportTold(ws: seq<What>, o: Outcome, told: bool)
    requires Reporting(ws, o, 1)
    ensures Reporting(ws + [Noted(Notified(o, told))], o, 2)
  {
    hide Settled;
    var b, x: bool :| Settled(b, o) && ws == b + Report(o, x)[..1];
    assert Report(o, x)[..1] == Report(o, told)[..1];
    Appended(b, Report(o, told), 1);
    assert ws + [Noted(Notified(o, told))] == b + Report(o, told)[..2];
  }

  lemma ReportEnds(ws: seq<What>, o: Outcome)
    requires Reporting(ws, o, 3)
    ensures IsSwitchCall(ws + [Unlocked(RoleSwitchLock, Some(o))])
  {
    hide Settled;
    var b, told: bool :| Settled(b, o) && ws == b + Report(o, told)[..3];
    Appended(b, Report(o, told), 3);
    assert Report(o, told)[..4] == Report(o, told);
    assert ws + [Unlocked(RoleSwitchLock, Some(o))] == b + Report(o, told);
  }

  /** What is added to a thread's own events by one of its own. */
  function Then(ws: seq<What>, t: Thread, e: Option<Event>): seq<What> {
    match e case None => ws case Some(ev) => SinceAfter(ws, t, ev)
  }

  /** What holds where a step of switchRole leads. */
  ghost predicate SwitchLeads(pc: Pc, ws: seq<What>) {
    (pc == Idle && IsCall(ws)) || (pc.Switch? && SwitchTrace(pc.s, ws))
  }

  lemma SwitchGoes(s: State, t: Thread, pc: SwitchPc, c: Choice, ws: seq<What>)
    requires SwitchTrace(pc, ws)
    ensures var i := SwitchProgram(pc, c); SwitchLeads(NextPc(s, i, c), Then(ws, t, EventOf(s, t, i)))
  {
    hide *;
    if IsAsking(pc) {
      AskingGoes(s, t, pc, c, ws);
    } else if IsEntering(pc) {
      EnteringGoes(s, t, pc, c, ws);
    } else if IsReporting(pc) {
      ReportingGoes(s, t, pc, c, ws);
    } else if IsReturning(pc) {
      ReturningGoes(s, t, pc, c, ws);
    } else {
      WaitingGoes(s, t, pc, c, ws);
    }
  }

  predicate IsAsking(pc: SwitchPc) {
    pc.LockRole? || pc.WriteRoleNode? || pc.OpenPortType?
  }

  predicate IsEntering(pc: SwitchPc) {
    pc.LockPartner? || pc.ClearPartnerUp? || pc.WriteRole? || pc.SeeWrite?
  }

  predicate IsReturning(pc: SwitchPc) {
    pc.UnlockPartner? || pc.SwitchToDrp? || pc.ReturnMode?
  }

  predicate IsReporting(pc: SwitchPc) {
    pc.LockToNotify? || pc.NotifySwitch? || pc.UnlockNotified? || pc.UnlockRole?
  }

  lemma AskingGoes(s: State, t: Thread, pc: SwitchPc, c: Choice, ws: seq<What>)
    requires SwitchTrace(pc, ws) && IsAsking(pc)
    ensures var i := SwitchProgram(pc, c); SwitchLeads(NextPc(s, i, c), Then(ws, t, EventOf(s, t, i)))
  {
    hide Asked, Entered, InVain, Attempt, ModeSwitch, Report, Settled, Entering, Attempted, Reporting, IsCall;
    match pc {
      case LockRole(p, mode) => AskedBegins(p, mode);
      case WriteRoleNode(p) => NodeSettles(ws, p, c.ok);
      case OpenPortType(p) =>
        assert Asked(p, true) == Asked(p, true) + Entered(p)[..0];
        EntersAt(ws, p, 0);
        OpenFails(ws, p);
    }
  }

  lemma EnteringGoes(s: State, t: Thread, pc: SwitchPc, c: Choice, ws: seq<What>)
    requires SwitchTrace(pc, ws) && IsEntering(pc)
    ensures var i := SwitchProgram(pc, c); SwitchLeads(NextPc(s, i, c), Then(ws, t, EventOf(s, t, i)))
  {
    assert pc.LockPartner? || pc.ClearPartnerUp? || pc.WriteRole? || pc.SeeWrite?;
    hide *;
    match pc {
      case LockPartner(p) => LockPartnerGoes(s, t, p, c, ws);
      case ClearPartnerUp(p) => ClearGoes(s, t, p, c, ws);
      case WriteRole(p) => WriteRoleGoes(s, t, p, c, ws);
      case SeeWrite(p) => SeeWriteGoes(s, t, p, c, ws);
    }
  }

  lemma LockPartnerGoes(s: State, t: Thread, p: Port, c: Choice, ws: seq<What>)
    requires SwitchTrace(LockPartner(p), ws)
    ensures var i := SwitchProgram(LockPartner(p), c); SwitchLeads(NextPc(s, i, c), Then(ws, t, EventOf(s, t, i)))
  {
    hide Asked, Entered, InVain, Attempt, ModeSwitch, Report, Settled, Entering, Attempted, Reporting, IsCall;
    EntersAt(ws, p, 1);
  }

  lemma ClearGoes(s: State, t: Thread, p: Port, c: Choice, ws: seq<What>)
    requires SwitchTrace(ClearPartnerUp(p), ws)
    ensures var i := SwitchProgram(ClearPartnerUp(p), c); SwitchLeads(NextPc(s, i, c), Then(ws, t, EventOf(s, t, i)))
  {
    hide Asked, Entered, InVain, Attempt, ModeSwitch, Report, Settled, Entering, Attempted, Reporting, IsCall;
    EntersAt(ws, p, 2);
  }

  lemma WriteRoleGoes(s: State, t: Thread, p: Port, c: Choice, ws: seq<What>)
    requires SwitchTrace(WriteRole(p), ws)
    ensures var i := SwitchProgram(WriteRole(p), c); SwitchLeads(NextPc(s, i, c), Then(ws, t, EventOf(s, t, i)))
  {
    hide Asked, Entered, InVain, Attempt, ModeSwitch, Report, Settled, Entering, Attempted, Reporting, IsCall;
    EntersAt(ws, p, 3);
  }

  lemma SeeWriteGoes(s: State, t: Thread, p: Port, c: Choice, ws: seq<What>)
    requires SwitchTrace(SeeWrite(p), ws)
    ensures var i := SwitchProgram(SeeWrite(p), c); SwitchLeads(NextPc(s, i, c), Then(ws, t, EventOf(s, t, i)))
  {
    hide Asked, Entered, InVain, Attempt, ModeSwitch, Report, Settled, Entering, Attempted, Reporting, IsCall;
    EntersAt(ws, p, 4);
    WriteFails(ws, p);
  }

  lemma WaitingGoes(s: State, t: Thread, pc: SwitchPc, c: Choice, ws: seq<What>)
    requires SwitchTrace(pc, ws) && !IsAsking(pc) && !IsEntering(pc) && !IsReturning(pc) && !IsReporting(pc)
    ensures var i := SwitchProgram(pc, c); SwitchLeads(NextPc(s, i, c), Then(ws, t, EventOf(s, t, i)))
  {
    assert pc.StartWait? || pc.Waiting? || pc.Waking? || pc.CheckPartnerUp?;
    hide *;
    match pc {
      case StartWait(p) => StartWaitGoes(s, t, p, c, ws);
      case Waiting(p) => WakesGoes(s, t, p, c, ws);
      case Waking(p, timedOut) => WakingGoes(s, t, p, timedOut, c, ws);
      case CheckPartnerUp(p, timedOut) => CheckGoes(s, t, p, timedOut, c, ws);
    }
  }

  lemma StartWaitGoes(s: State, t: Thread, p: Port, c: Choice, ws: seq<What>)
    requires SwitchTrace(StartWait(p), ws)
    ensures var i := SwitchProgram(StartWait(p), c); SwitchLeads(NextPc(s, i, c), Then(ws, t, EventOf(s, t, i)))
  {
    hide Entering, IsCall;
    EnterMore(ws, p, [], WaitStarted);
    assert [] + [WaitStarted] == [WaitStarted];
  }

  lemma WakesGoes(s: State, t: Thread, p: Port, c: Choice, ws: seq<What>)
    requires SwitchTrace(Waiting(p), ws)
    ensures var i := SwitchProgram(Waiting(p), c); SwitchLeads(NextPc(s, i, c), Then(ws, t, EventOf(s, t, i)))
  {
    hide Entering, IsCall;
  }

  lemma WakingGoes(s: State, t: Thread, p: Port, timedOut: bool, c: Choice, ws: seq<What>)
    requires SwitchTrace(Waking(p, timedOut), ws)
    ensures var i := SwitchProgram(Waking(p, timedOut), c); SwitchLeads(NextPc(s, i, c), Then(ws, t, EventOf(s, t, i)))
  {
    hide Entering, IsCall;
    EnterMore(ws, p, [WaitStarted], Locked(PartnerLock));
    assert [WaitStarted] + [Locked(PartnerLock)] == [WaitStarted, Locked(PartnerLock)];
  }

  lemma CheckGoes(s: State, t: Thread, p: Port, timedOut: bool, c: Choice, ws: seq<What>)
    requires SwitchTrace(CheckPartnerUp(p, timedOut), ws)
    ensures var i := SwitchProgram(CheckPartnerUp(p, timedOut), c);
            SwitchLeads(NextPc(s, i, c), Then(ws, t, EventOf(s, t, i)))
  {
    hide Entering, Attempted, IsCall;
    if timedOut {
      WaitEnds(ws, p, false);
    } else {
      WaitEnds(ws, p, true);
      WokenInVain(ws, p);
    }
  }

  lemma ReturningGoes(s: State, t: Thread, pc: SwitchPc, c: Choice, ws: seq<What>)
    requires SwitchTrace(pc, ws) && IsReturning(pc)
    ensures var i := SwitchProgram(pc, c); SwitchLeads(NextPc(s, i, c), Then(ws, t, EventOf(s, t, i)))
  {
    hide Asked, Entered, InVain, Attempt, ModeSwitch, Report, Settled, Entering, Attempted, Reporting, IsCall;
    match pc {
      case UnlockPartner(p, ok) =>
      case SwitchToDrp(p) => DualWritten(ws, p);
      case ReturnMode(p, ok) => ModeReturns(ws, p, ok); ReportBegins(ws + [ModeReturned(ok)], Outcome(p, true, ok));
    }
  }

  lemma ReportingGoes(s: State, t: Thread, pc: SwitchPc, c: Choice, ws: seq<What>)
    requires SwitchTrace(pc, ws) && IsReporting(pc)
    ensures var i := SwitchProgram(pc, c); SwitchLeads(NextPc(s, i, c), Then(ws, t, EventOf(s, t, i)))
  {
    hide Asked, Entered, InVain, Attempt, ModeSwitch, Report, Settled, Entering, Attempted, Reporting, IsSwitchCall, IsSectionCall,
         IsSetCall;
    match pc {
      case LockToNotify(o) => ReportItems(o); ReportMore(ws, o, 0, Locked(CallbackLock));
      case NotifySwitch(o) => ReportTold(ws, o, s.vars.callback);
      case UnlockNotified(o) => ReportItems(o); ReportMore(ws, o, 2, Unlocked(CallbackLock, None));
      case UnlockRole(o) => ReportEnds(ws, o);
    }
  }

  lemma ReportItems(o: Outcome)
    ensures Report(o, true)[0] == Locked(CallbackLock) && Report(o, true)[2] == Unlocked(CallbackLock, None)
  {
  }

  lemma AskedBegins(p: Port, mode: bool)
    ensures Asked(p, mode) == [Noted(Begun(Switch(LockRole(p, mode))))] + [Locked(RoleSwitchLock)]
  {
  }

  lemma NodeSettles(ws: seq<What>, p: Port, ok: bool)
    requires ws == Asked(p, false)
    ensures Reporting(ws + [Noted(NodeWritten(p, ok))], Outcome(p, false, ok), 0)
  {
    hide Asked;
    ReportBegins(ws + [Noted(NodeWritten(p, ok))], Outcome(p, false, ok));
  }

  /** The steps before the wait, one by one. */
  lemma EntersAt(ws: seq<What>, p: Port, n: nat)
    requires n < 5 && ws == Asked(p, true) + Entered(p)[..n]
    ensures n < 4 ==> ws + [Entered(p)[n]] == Asked(p, true) + Entered(p)[..n + 1]
    ensures n == 4 ==> Entering(ws + [Entered(p)[n]], p, [])
    ensures Entered(p) == [Noted(Opened(p, true)), Locked(PartnerLock), PartnerUp(false), PortTypeWrite(p, Role),
                           Noted(RoleWritten(p, true))]
  {
    hide Asked;
    Appended(Asked(p, true), Entered(p), n);
    if n == 4 { EnteredAll(p); }
  }

  // ---------- The other calls ----------

  function SectionsBegun(n: nat, done: nat): seq<What> {
    [Noted(Begun(Call(LockSection(n))))] + Sections(done)
  }

  /** Of n + 1 sections, all but the last left + 1 have been passed. */
  ghost predicate SectionsLeft(ws: seq<What>, left: nat, tail: seq<What>) {
    exists n: nat :: PassedOf(ws, n, left, tail)
  }

  predicate PassedOf(ws: seq<What>, n: nat, left: nat, tail: seq<What>) {
    n >= left && ws == SectionsBegun(n, n - left) + tail
  }

  /** What a thread has done by each point of a call that only takes mLock, and of setCallback. */
  ghost predicate CallTrace(pc: CallPc, ws: seq<What>) {
    match pc
    case LockSection(left) => SectionsLeft(ws, left, [])
    case UnlockSection(left) => SectionsLeft(ws, left, [Locked(CallbackLock)])
    case LockToSet(r) => ws == [Noted(Begun(Call(LockToSet(r))))]
    case _ => Setting(ws)
  }

  ghost predicate Setting(ws: seq<What>) {
    exists r: bool :: ws == [Noted(Begun(Call(LockToSet(r)))), Locked(CallbackLock)]
  }

  lemma SectionTaken(ws: seq<What>, left: nat)
    requires SectionsLeft(ws, left, [])
    ensures SectionsLeft(ws + [Locked(CallbackLock)], left, [Locked(CallbackLock)])
  {
    hide SectionsBegun;
    var n: nat :| PassedOf(ws, n, left, []);
    assert ws == SectionsBegun(n, n - left);
    assert PassedOf(ws + [Locked(CallbackLock)], n, left, [Locked(CallbackLock)]);
  }

  lemma SectionDone(ws: seq<What>, left: nat)
    requires SectionsLeft(ws, left, [Locked(CallbackLock)])
    ensures var ws' := ws + [Unlocked(CallbackLock, None)];
            if left > 0 then SectionsLeft(ws', left - 1, []) else IsSectionCall(ws')
  {
    var n: nat :| PassedOf(ws, n, left, [Locked(CallbackLock)]);
    var k := n - left;
    var ws' := ws + [Unlocked(CallbackLock, None)];
    assert Sections(k + 1) == Sections(k) + [Locked(CallbackLock), Unlocked(CallbackLock, None)];
    hide Sections;
    assert ws' == SectionsBegun(n, k + 1);
    if left > 0 {
      assert ws' == ws' + [];
      assert PassedOf(ws', n, left - 1, []);
    } else {
      assert ws' == [Noted(Begun(Call(LockSection(n))))] + Sections(n + 1);
    }
  }

  lemma SetDone(ws: seq<What>)
    requires Setting(ws)
    ensures IsSetCall(ws + [Unlocked(CallbackLock, None)])
  {
    var r: bool :| ws == [Noted(Begun(Call(LockToSet(r)))), Locked(CallbackLock)];
    assert ws + [Unlocked(CallbackLock, None)]
        == [Noted(Begun(Call(LockToSet(r)))), Locked(CallbackLock), Unlocked(CallbackLock, None)];
  }

  ghost predicate CallLeads(pc: Pc, ws: seq<What>) {
    (pc == Idle && IsCall(ws)) || (pc.Call? && CallTrace(pc.k, ws))
  }

  lemma CallGoes(s: State, t: Thread, pc: CallPc, c: Choice, ws: seq<What>)
    requires CallTrace(pc, ws)
    ensures var i := CallProgram(pc, c); CallLeads(NextPc(s, i, c), Then(ws, t, EventOf(s, t, i)))
  {
    hide SectionsBegun, Sections, SectionsLeft, IsSectionCall, IsSetCall, IsSwitchCall;
    match pc {
      case LockSection(left) => SectionTaken(ws, left);
      case UnlockSection(left) => SectionDone(ws, left);
      case LockToSet(r) => assert Setting(ws + [Locked(CallbackLock)]);
      case SetCallback(_) =>
      case KillWorker =>
      case JoinWorker =>
      case ClearDestroy =>
      case CreateWorker =>
      case UnlockSet => SetDone(ws);
    }
  }

  /** What a call has done when it is begun. */
  lemma CallBegins(s: State, t: Thread, c: Choice, ws: seq<What>)
    requires IsEntry(c.entry)
    ensures var ws' := Then(ws, t, EventOf(s, t, Note(Begun(c.entry), c.entry)));
            (c.entry.Switch? ==> SwitchTrace(c.entry.s, ws')) && (c.entry.Call? ==> CallTrace(c.entry.k, ws'))
  {
    if c.entry.Call? && c.entry.k.LockSection? {
      var n := c.entry.k.sections;
      assert [Noted(Begun(c.entry))] == SectionsBegun(n, 0) + [];
      assert PassedOf([Noted(Begun(c.entry))], n, n, []);
    }
  }

  // ---------- The worker ----------

  /** The worker has handled the first records of a message, with some actions left. */
  ghost predicate Handling(ws: seq<What>, rest: seq<Action>, tail: seq<What>) {
    exists all, k: nat :: Handles(ws, all, k, rest, tail)
  }

  predicate Handles(ws: seq<What>, all: seq<Action>, k: nat, rest: seq<Action>, tail: seq<What>) {
    && k <= |all| && all[k..] == rest && (forall j :: 0 <= j < k ==> all[j] == PartnerAdded)
    && ws == [Received(all)] + Records(k) + tail
  }

  /** The worker has come to the status query of a message. */
  ghost predicate Querying(ws: seq<What>, tail: seq<What>) {
    exists rest: seq<Action> :: rest != [] && rest[0] == StatusQuery && Handling(ws, rest, tail)
  }

  function Restoring(ports: seq<Port>, partners: seq<bool>): seq<What>
    requires |partners| <= |ports|
  {
    QueryEvents(ports) + [Locked(RoleSwitchLock)] + Lookups(ports, partners)
  }

  ghost predicate RestoringAt(ws: seq<What>, ports: seq<Port>, partners: seq<bool>, tail: seq<What>) {
    |partners| <= |ports| && Querying(ws, Restoring(ports, partners) + tail)
  }

  ghost predicate IsRunning(ws: seq<What>) {
    ws == [Noted(Started(true))] || IsMessage(ws)
  }

  /** What a worker has done by each point, of the message at hand. */
  ghost predicate WorkTrace(pc: WorkPc, ws: seq<What>) {
    match pc
    case OpenSocket => ws == []
    case CheckDestroy => IsRunning(ws)
    case Poll => IsRunning(ws)
    case Scan(todo) => Handling(ws, todo, [])
    case LockPartnerToSet(todo) => Handling(ws, [PartnerAdded] + todo, [])
    case SetPartnerUp(todo) => Handling(ws, [PartnerAdded] + todo, [Locked(PartnerLock)])
    case SignalPartner(todo) => Handling(ws, [PartnerAdded] + todo, [Locked(PartnerLock), PartnerUp(true)])
    case UnlockPartnerSet(todo) => Handling(ws, [PartnerAdded] + todo, [Locked(PartnerLock), PartnerUp(true)])
    case LockToQuery => Querying(ws, [])
    case QueryPorts => Querying(ws, [Locked(CallbackLock)])
    case UnlockQuery(ports) => Querying(ws, [Locked(CallbackLock), Noted(Queried(ports))])
    case TryLockRole(ports) => Querying(ws, QueryEvents(ports))
    case RestoreDrp(rest) =>
      exists ports, partners: seq<bool> ::
        RestoringAt(ws, ports, partners, []) && |partners| <= |ports| && ports[|partners|..] == rest
    case WriteDual(p, rest) =>
      exists ports, partners: seq<bool> ::
        RestoringAt(ws, ports, partners, [Noted(LookedUp(p, false))]) && |partners| <= |ports|
        && ports[|partners|..] == [p] + rest
    case UnlockRestored => exists ports, partners: seq<bool> :: RestoringAt(ws, ports, partners, []) && |partners| == |ports|
  }

  ghost predicate EndedTrace(ws: seq<What>) {
    ws == [] || ws == [Noted(Started(false))] || ws == [Noted(PollFailed)] || IsRunning(ws)
  }

  ghost predicate WorkLeads(pc: Pc, ws: seq<What>) {
    (pc == Ended && EndedTrace(ws)) || (pc.Work? && WorkTrace(pc.w, ws))
  }

  lemma HandlingMore(ws: seq<What>, rest: seq<Action>, tail: seq<What>, w: What)
    requires Handling(ws, rest, tail)
    ensures Handling(ws + [w], rest, tail + [w])
  {
    hide Records;
    var all, k: nat :| Handles(ws, all, k, rest, tail);
    assert ws + [w] == [Received(all)] + Records(k) + (tail + [w]);
    assert Handles(ws + [w], all, k, rest, tail + [w]);
  }

  lemma QueryingMore(ws: seq<What>, tail: seq<What>, w: What)
    requires Querying(ws, tail)
    ensures Querying(ws + [w], tail + [w])
  {
    hide Handling;
    var rest: seq<Action> :| rest != [] && rest[0] == StatusQuery && Handling(ws, rest, tail);
    HandlingMore(ws, rest, tail, w);
  }

  lemma MessageBegins(all: seq<Action>)
    ensures Handling([Received(all)], all, [])
  {
    assert [Received(all)] == [Received(all)] + Records(0) + [];
    assert Handles([Received(all)], all, 0, all, []);
  }

  /** One more record has been handled. */
  lemma RecordHandled(ws: seq<What>, rest: seq<Action>)
    requires Handling(ws, [PartnerAdded] + rest, [Locked(PartnerLock), PartnerUp(true)])
    ensures Handling(ws + [Unlocked(PartnerLock, None)], rest, [])
  {
    var tail := [Locked(PartnerLock), PartnerUp(true)];
    var all, k: nat :| Handles(ws, all, k, [PartnerAdded] + rest, tail);
    assert all[k] == all[k..][0] == PartnerAdded && all[k + 1..] == all[k..][1..] == rest;
    assert Records(k + 1) == Records(k) + [Locked(PartnerLock), PartnerUp(true), Unlocked(PartnerLock, None)];
    hide Records;
    assert ws + [Unlocked(PartnerLock, None)] == [Received(all)] + Records(k + 1) + [];
    assert Handles(ws + [Unlocked(PartnerLock, None)], all, k + 1, rest, []);
  }

  /** The records before the rest are all there are before a status query. */
  lemma {:induction false} CountOf(all: seq<Action>, k: nat)
    requires k <= |all| && (forall j :: 0 <= j < k ==> all[j] == PartnerAdded) && (k < |all| ==> all[k] == StatusQuery)
    ensures Count(all) == k && (k == |all| <==> StatusQuery !in all)
    decreases k
  {
    if k > 0 {
      CountOf(all[1..], k - 1);
      assert all == [all[0]] + all[1..];
    }
  }

  lemma ScanEnds(ws: seq<What>)
    requires Handling(ws, [], [])
    ensures IsMessage(ws)
  {
    var all, k: nat :| Handles(ws, all, k, [], []);
    assert |all[k..]| == 0;
    CountOf(all, k);
    assert Proper(all, NoQuery) && ws == MessageEvents(all, NoQuery);
  }

  lemma QueryEnds(ws: seq<What>, v: Visit)
    requires !v.NoQuery? && (v.Restored? ==> |v.partners| == |v.ports|) && Querying(ws, VisitEvents(v))
    ensures IsMessage(ws) && (v.Restored? ==> IsRestoring(ws))
  {
    hide Records, VisitEvents, Count;
    var rest: seq<Action> :| rest != [] && rest[0] == StatusQuery && Handling(ws, rest, VisitEvents(v));
    var all, k: nat :| Handles(ws, all, k, rest, VisitEvents(v));
    assert all[k] == all[k..][0];
    CountOf(all, k);
    assert Proper(all, v) && ws == MessageEvents(all, v);
  }

  lemma WorkGoes(s: State, t: Thread, pc: WorkPc, c: Choice, ws: seq<What>)
    requires WorkTrace(pc, ws)
    ensures var i := WorkProgram(pc, c); WorkLeads(NextPc(s, i, c), Then(ws, t, EventOf(s, t, i)))
  {
    hide *;
    if pc.Scan? {
      ScanGoes(s, t, pc.todo, c, ws);
    } else if IsHandling(pc) {
      HandlingGoes(s, t, pc, c, ws);
    } else if pc.TryLockRole? || pc.UnlockRestored? {
      RoleGoes(s, t, pc, c, ws);
    } else if pc.RestoreDrp? || pc.WriteDual? {
      RestoringGoes(s, t, pc, c, ws);
    } else {
      LoopGoes(s, t, pc, c, ws);
    }
  }

  predicate IsHandling(pc: WorkPc) {
    pc.Scan? || pc.LockPartnerToSet? || pc.SetPartnerUp? || pc.SignalPartner? || pc.UnlockPartnerSet?
  }

  lemma LoopGoes(s: State, t: Thread, pc: WorkPc, c: Choice, ws: seq<What>)
    requires WorkTrace(pc, ws) && !IsHandling(pc)
    requires !pc.RestoreDrp? && !pc.WriteDual? && !pc.UnlockRestored? && !pc.TryLockRole?
    ensures var i := WorkProgram(pc, c); WorkLeads(NextPc(s, i, c), Then(ws, t, EventOf(s, t, i)))
  {
    hide Handled, Handling, Querying, IsMessage;
    match pc {
      case OpenSocket =>
      case CheckDestroy =>
      case Poll => MessageBegins(Handled(c.message));
      case LockToQuery => QueryingMore(ws, [], Locked(CallbackLock)); assert [] + [Locked(CallbackLock)] == [Locked(CallbackLock)];
      case QueryPorts =>
        QueryingMore(ws, [Locked(CallbackLock)], Noted(Queried(c.ports)));
        assert [Locked(CallbackLock)] + [Noted(Queried(c.ports))] == [Locked(CallbackLock), Noted(Queried(c.ports))];
      case UnlockQuery(ports) =>
        QueryingMore(ws, [Locked(CallbackLock), Noted(Queried(ports))], Unlocked(CallbackLock, None));
        assert [Locked(CallbackLock), Noted(Queried(ports))] + [Unlocked(CallbackLock, None)] == QueryEvents(ports);
    }
  }

  lemma ScanGoes(s: State, t: Thread, todo: seq<Action>, c: Choice, ws: seq<What>)
    requires WorkTrace(Scan(todo), ws)
    ensures var i := WorkProgram(Scan(todo), c); WorkLeads(NextPc(s, i, c), Then(ws, t, EventOf(s, t, i)))
  {
    hide Handled, Handling, IsMessage;
    if todo == [] {
      ScanEnds(ws);
    } else if todo[0] == PartnerAdded {
      assert todo == [PartnerAdded] + todo[1..];
    } else {
      assert Querying(ws, []);
    }
  }

  lemma HandlingGoes(s: State, t: Thread, pc: WorkPc, c: Choice, ws: seq<What>)
    requires WorkTrace(pc, ws) && IsHandling(pc) && !pc.Scan?
    ensures var i := WorkProgram(pc, c); WorkLeads(NextPc(s, i, c), Then(ws, t, EventOf(s, t, i)))
  {
    hide Handled, Handling, IsMessage, IsRunning, Querying, RestoringAt;
    match pc {
      case LockPartnerToSet(todo) =>
        HandlingMore(ws, [PartnerAdded] + todo, [], Locked(PartnerLock));
        assert [] + [Locked(PartnerLock)] == [Locked(PartnerLock)];
      case SetPartnerUp(todo) =>
        HandlingMore(ws, [PartnerAdded] + todo, [Locked(PartnerLock)], PartnerUp(true));
        assert [Locked(PartnerLock)] + [PartnerUp(true)] == [Locked(PartnerLock), PartnerUp(true)];
      case SignalPartner(_) =>
      case UnlockPartnerSet(todo) => RecordHandled(ws, todo);
    }
  }

  // ---------- The restoring of ports ----------

  lemma LockTaken(ws: seq<What>, ports: seq<Port>)
    requires Querying(ws, QueryEvents(ports))
    ensures RestoringAt(ws + [Locked(RoleSwitchLock)], ports, [], [])
    ensures IsMessage(ws)
  {
    QueryEnds(ws, Visit.Refused(ports));
    hide Querying, QueryEvents;
    QueryingMore(ws, QueryEvents(ports), Locked(RoleSwitchLock));
    assert QueryEvents(ports) + [Locked(RoleSwitchLock)] == Restoring(ports, []) + [];
  }

  lemma OneLookup(ws: seq<What>, ports: seq<Port>, partners: seq<bool>, partner: bool)
    requires RestoringAt(ws, ports, partners, []) && |partners| < |ports|
    ensures var w := Noted(LookedUp(ports[|partners|], partner));
            if partner then RestoringAt(ws + [w], ports, partners + [true], []) else RestoringAt(ws + [w], ports, partners, [w])
  {
    hide Querying, QueryEvents;
    var p, w := ports[|partners|], Noted(LookedUp(ports[|partners|], partner));
    QueryingMore(ws, Restoring(ports, partners) + [], w);
    assert Restoring(ports, partners) + [] + [w] == Restoring(ports, partners) + [w];
    if partner {
      LookupAdded(ports, partners, true);
      assert Restoring(ports, partners) + [w] == Restoring(ports, partners + [true]) + [];
    }
  }

  lemma LookupAdded(ports: seq<Port>, partners: seq<bool>, partner: bool)
    requires |partners| < |ports|
    ensures Lookups(ports, partners + [partner]) == Lookups(ports, partners) + Lookup(ports[|partners|], partner)
    ensures Restoring(ports, partners + [partner]) == Restoring(ports, partners) + Lookup(ports[|partners|], partner)
  {
    hide QueryEvents, Lookup;
    assert (partners + [partner])[..|partners|] == partners;
  }

  lemma OneDual(ws: seq<What>, ports: seq<Port>, partners: seq<bool>)
    requires |partners| < |ports| && RestoringAt(ws, ports, partners, [Noted(LookedUp(ports[|partners|], false))])
    ensures RestoringAt(ws + [PortTypeWrite(ports[|partners|], Dual)], ports, partners + [false], [])
  {
    hide Querying, QueryEvents;
    var p := ports[|partners|];
    var tail := [Noted(LookedUp(p, false))];
    QueryingMore(ws, Restoring(ports, partners) + tail, PortTypeWrite(p, Dual));
    LookupAdded(ports, partners, false);
    assert tail + [PortTypeWrite(p, Dual)] == Lookup(p, false);
    assert Restoring(ports, partners) + tail + [PortTypeWrite(p, Dual)] == Restoring(ports, partners + [false]) + [];
  }

  lemma AllRestored(ws: seq<What>, ports: seq<Port>, partners: seq<bool>)
    requires RestoringAt(ws, ports, partners, []) && |partners| == |ports|
    ensures IsMessage(ws + [Unlocked(RoleSwitchLock, None)]) && IsRestoring(ws + [Unlocked(RoleSwitchLock, None)])
  {
    var v := Restored(ports, partners);
    hide Querying, QueryEvents, Lookups;
    QueryingMore(ws, Restoring(ports, partners) + [], Unlocked(RoleSwitchLock, None));
    assert Restoring(ports, partners) + [] + [Unlocked(RoleSwitchLock, None)] == VisitEvents(v);
    QueryEnds(ws + [Unlocked(RoleSwitchLock, None)], v);
  }

  lemma RoleGoes(s: State, t: Thread, pc: WorkPc, c: Choice, ws: seq<What>)
    requires WorkTrace(pc, ws) && (pc.UnlockRestored? || pc.TryLockRole?)
    ensures var i := WorkProgram(pc, c); WorkLeads(NextPc(s, i, c), Then(ws, t, EventOf(s, t, i)))
  {
    hide Handled, Handling, Querying, IsMessage, RestoringAt, QueryEvents;
    match pc {
      case TryLockRole(ports) =>
        LockTaken(ws, ports);
        var none: seq<bool> := [];
        assert ports[|none|..] == ports;
      case UnlockRestored =>
        var ports, partners: seq<bool> :| RestoringAt(ws, ports, partners, []) && |partners| == |ports|;
        AllRestored(ws, ports, partners);
    }
  }

  lemma RestoringGoes(s: State, t: Thread, pc: WorkPc, c: Choice, ws: seq<What>)
    requires WorkTrace(pc, ws) && (pc.RestoreDrp? || pc.WriteDual?)
    ensures var i := WorkProgram(pc, c); WorkLeads(NextPc(s, i, c), Then(ws, t, EventOf(s, t, i)))
  {
    hide Handled, Handling, Querying, IsMessage, RestoringAt, QueryEvents;
    match pc {
      case RestoreDrp(rest) =>
        var ports, partners: seq<bool> :|
          RestoringAt(ws, ports, partners, []) && |partners| <= |ports| && ports[|partners|..] == rest;
        if rest != [] { LooksUp(ws, ports, partners, rest, c.ok); }
      case WriteDual(p, rest) =>
        var ports, partners: seq<bool> :|
          RestoringAt(ws, ports, partners, [Noted(LookedUp(p, false))]) && |partners| <= |ports|
          && ports[|partners|..] == [p] + rest;
        WritesDual(ws, ports, partners, p, rest);
    }
  }

  lemma LooksUp(ws: seq<What>, ports: seq<Port>, partners: seq<bool>, rest: seq<Port>, partner: bool)
    requires RestoringAt(ws, ports, partners, []) && |partners| <= |ports| && ports[|partners|..] == rest && rest != []
    ensures var ws' := ws + [Noted(LookedUp(rest[0], partner))];
            if partner then WorkTrace(RestoreDrp(rest[1..]), ws') else WorkTrace(WriteDual(rest[0], rest[1..]), ws')
  {
    hide RestoringAt;
    OneLookup(ws, ports, partners, partner);
    var ws' := ws + [Noted(LookedUp(rest[0], partner))];
    assert rest[0] == ports[|partners|];
    if partner {
      assert ports[|partners + [true]|..] == rest[1..];
      assert RestoringAt(ws', ports, partners + [true], []);
    } else {
      assert rest == [rest[0]] + rest[1..];
      assert RestoringAt(ws', ports, partners, [Noted(LookedUp(rest[0], false))]);
    }
  }

  lemma WritesDual(ws: seq<What>, ports: seq<Port>, partners: seq<bool>, p: Port, rest: seq<Port>)
    requires RestoringAt(ws, ports, partners, [Noted(LookedUp(p, false))])
    requires |partners| <= |ports| && ports[|partners|..] == [p] + rest
    ensures WorkTrace(RestoreDrp(rest), ws + [PortTypeWrite(p, Dual)])
  {
    hide RestoringAt;
    assert p == ports[|partners|..][0] == ports[|partners|];
    OneDual(ws, ports, partners);
    assert ports[|partners + [false]|..] == ports[|partners|..][1..] == rest;
  }

  // ---------- Every thread, at every point ----------

  /** What a thread has done of its call or message, by its program point. */
  ghost predicate PcTrace(pc: Pc, ws: seq<What>) {
    match pc
    case Idle => ws == [] || IsCall(ws)
    case Switch(p) => SwitchTrace(p, ws)
    case Call(p) => CallTrace(p, ws)
    case Work(p) => WorkTrace(p, ws)
    case Ended => EndedTrace(ws)
  }

  /** What an event must find before it: a call begins when the last one is whole, and so does a message. */
  ghost predicate Accounted(before: seq<Event>, e: Event) {
    var ws := Since(before, e.t);
    match e.what
    case Noted(n) => (n.Begun? ==> ws == [] || IsCall(ws)) && (n.PollFailed? ==> IsRunning(ws))
    case Received(_) => IsRunning(ws)
    case ModeReturned(ok) => exists p :: Settled(ws + [e.what], Outcome(p, true, ok))
    case Unlocked(l, done) => l == RoleSwitchLock ==> if e.t.Worker? then IsRestoring(ws + [e.what]) else IsSwitchCall(ws + [e.what])
    case _ => true
  }

  ghost predicate AllAccounted(log: seq<Event>) {
    forall r :: 0 <= r < |log| ==> Accounted(log[..r], log[r])
  }

  ghost predicate Traces(s: State) {
    && AllAccounted(s.log)
    && (forall t: Thread :: PcTrace(s.At(t), Since(s.log, t)))
    && (forall w: nat :: w >= s.vars.created ==> Since(s.log, Worker(w)) == [])
  }

  lemma SinceGrows(log: seq<Event>, e: Event)
    ensures forall x: Thread :: Since(log + [e], x) == SinceAfter(Since(log, x), x, e)
  {
    hide SinceAfter;
    assert (log + [e])[..|log|] == log;
  }

  lemma AccountedGrows(log: seq<Event>, e: Event)
    requires AllAccounted(log) && Accounted(log, e)
    ensures AllAccounted(log + [e])
  {
    hide Accounted;
    var more := log + [e];
    assert more[..|log|] == log;
    forall r | 0 <= r < |more| ensures Accounted(more[..r], more[r]) {
      if r < |log| {
        assert more[..r] == log[..r] && Accounted(log[..r], log[r]);
      }
    }
  }

  lemma TracesGrow(s: State, t: Thread, i: Instr)
    requires AllAccounted(s.log)
    requires EventOf(s, t, i).Some? ==> Accounted(s.log, EventOf(s, t, i).value)
    ensures var log := s.log + NextEvents(s, t, i);
            AllAccounted(log) && forall x: Thread :: Since(log, x) == Then(Since(s.log, x), x, EventOf(s, t, i))
  {
    var es := NextEvents(s, t, i);
    if es == [] {
      assert s.log + es == s.log;
    } else {
      assert es == [es[0]];
      SinceGrows(s.log, es[0]);
      AccountedGrows(s.log, es[0]);
    }
    hide NextEvents, SinceAfter, Since, AllAccounted, Accounted;
  }

  lemma OwnTrace(s: State, t: Thread, c: Choice, ws: seq<What>)
    requires PcTrace(s.At(t), ws) && Step(s, t, c).Some?
    ensures var i := Program(s.At(t), c); PcTrace(NextPc(s, i, c), Then(ws, t, EventOf(s, t, i)))
  {
    hide SwitchProgram, CallProgram, WorkProgram, SwitchTrace, CallTrace, WorkTrace, EndedTrace, IsCall, NextVars, NextOwners, NextPcs;
    match s.At(t) {
      case Switch(p) => SwitchGoes(s, t, p, c, ws);
      case Call(p) => CallGoes(s, t, p, c, ws);
      case Work(p) => WorkGoes(s, t, p, c, ws);
      case Idle => CallBegins(s, t, c, ws);
      case Ended =>
    }
    hide NextEvents, NextPc, Then;
  }

  /** The events that end or begin something, by program point. */
  predicate Ends(pc: Pc, i: Instr) {
    && (i.Note? && i.n.Begun? ==> pc == Idle)
    && (i.Note? && i.n.PollFailed? ==> pc == Work(Poll))
    && (i.Receive? ==> pc == Work(Poll))
    && (i.Return? ==> pc.Switch? && pc.s.ReturnMode? && i.ok == pc.s.ok)
    && (i.Drop? && i.l == RoleSwitchLock ==>
          || (pc == Work(UnlockRestored) && i.done == None)
          || (pc.Switch? && pc.s.UnlockRole? && i.done == Some(pc.s.outcome)))
  }

  lemma SwitchEnds(p: SwitchPc, c: Choice)
    ensures Ends(Switch(p), SwitchProgram(p, c))
  {
  }

  lemma CallEnds(p: CallPc, c: Choice)
    ensures Ends(Call(p), CallProgram(p, c))
  {
  }

  lemma WorkEnds(p: WorkPc, c: Choice)
    ensures Ends(Work(p), WorkProgram(p, c))
  {
    hide Handled;
  }

  lemma ProgramEnds(pc: Pc, c: Choice)
    ensures Ends(pc, Program(pc, c))
  {
    match pc {
      case Switch(p) => SwitchEnds(p, c);
      case Call(p) => CallEnds(p, c);
      case Work(p) => WorkEnds(p, c);
      case Idle =>
      case Ended =>
    }
    hide SwitchProgram, CallProgram, WorkProgram;
  }

  lemma EventAccounted(s: State, t: Thread, i: Instr)
    requires WellTyped(s) && PcTrace(s.At(t), Since(s.log, t)) && Ends(s.At(t), i)
    ensures EventOf(s, t, i).Some? ==> Accounted(s.log, EventOf(s, t, i).value)
  {
    assert InWorker(s.At(t)) <==> t.Worker?;
    hide *;
    if i.Return? || i.Drop? {
      EndAccounted(s, t, i);
    } else {
      BeginningAccounted(s, t, i);
    }
  }

  lemma EndAccounted(s: State, t: Thread, i: Instr)
    requires (InWorker(s.At(t)) <==> t.Worker?) && PcTrace(s.At(t), Since(s.log, t)) && Ends(s.At(t), i)
    requires i.Return? || i.Drop?
    ensures EventOf(s, t, i).Some? ==> Accounted(s.log, EventOf(s, t, i).value)
  {
    var pc, ws := s.At(t), Since(s.log, t);
    hide Since, Settled, IsCall, IsSwitchCall, IsMessage, IsRestoring, Attempted, Reporting, RestoringAt;
    if i.Return? {
      ModeReturns(ws, pc.s.port, pc.s.ok);
    } else if i.l == RoleSwitchLock {
      if pc.Switch? {
        ReportEnds(ws, pc.s.outcome);
      } else {
        var ports, partners: seq<bool> :| RestoringAt(ws, ports, partners, []) && |partners| == |ports|;
        AllRestored(ws, ports, partners);
      }
    }
  }

  lemma BeginningAccounted(s: State, t: Thread, i: Instr)
    requires (InWorker(s.At(t)) <==> t.Worker?) && PcTrace(s.At(t), Since(s.log, t)) && Ends(s.At(t), i)
    requires !i.Return? && !i.Drop?
    ensures EventOf(s, t, i).Some? ==> Accounted(s.log, EventOf(s, t, i).value)
  {
    hide Since, IsCall, IsRunning, SwitchTrace, CallTrace;
  }

  lemma StepKeepsTraces(s: State, t: Thread, c: Choice)
    requires Invariant(s) && Traces(s) && Step(s, t, c).Some?
    ensures Traces(Step(s, t, c).value)
  {
    var i, s' := Program(s.At(t), c), Step(s, t, c).value;
    hide Lifecycle, LocksMatch, Handshake, PcTrace, Since, AllAccounted, Ends;
    assert PcTrace(s.At(t), Since(s.log, t));
    assert s'.log == s.log + NextEvents(s, t, i);
    ProgramEnds(s.At(t), c);
    EventAccounted(s, t, i);
    TracesGrow(s, t, i);
    forall x: Thread ensures PcTrace(s'.At(x), Since(s'.log, x)) {
      ThreadTrace(s, t, c, x);
    }
    forall w: nat | w >= s'.vars.created ensures Since(s'.log, Worker(w)) == [] {
      Uncreated(s, t, c, w);
    }
    hide Program, Step, NextEvents, NextVars, Then, Accounted, EventOf;
  }

  lemma ThreadTrace(s: State, t: Thread, c: Choice, x: Thread)
    requires Invariant(s) && Traces(s) && Step(s, t, c).Some?
    ensures var i := Program(s.At(t), c);
            PcTrace(Step(s, t, c).value.At(x), Then(Since(s.log, x), x, EventOf(s, t, i)))
  {
    var i, s' := Program(s.At(t), c), Step(s, t, c).value;
    var u, ws := Other(s, i, c), Since(s.log, x);
    Moves(s, t, i, c);
    assert PcTrace(s.At(x), ws);
    if x == t {
      OwnTrace(s, t, c, ws);
    } else if u.Some? && x == u.value.0 {
      assert Then(ws, x, EventOf(s, t, i)) == ws;
      OtherTrace(s, i, c, ws);
    } else {
      assert s'.At(x) == s.At(x) && Then(ws, x, EventOf(s, t, i)) == ws;
    }
    hide Program, NextPc, NextPcs, NextOwners, NextVars, PcTrace, Since, AllAccounted, Invariant;
  }

  /** The other thread of a step is woken from its wait, or starts. */
  lemma OtherTrace(s: State, i: Instr, c: Choice, ws: seq<What>)
    requires Other(s, i, c).Some? && PcTrace(s.At(Other(s, i, c).value.0), ws)
    requires i.Create? ==> ws == []
    ensures PcTrace(Other(s, i, c).value.1, ws)
  {
    hide Entering, EndedTrace;
  }

  lemma Uncreated(s: State, t: Thread, c: Choice, w: nat)
    requires Invariant(s) && Traces(s) && Step(s, t, c).Some? && w >= Step(s, t, c).value.vars.created
    ensures var i := Program(s.At(t), c); w >= s.vars.created && Then(Since(s.log, Worker(w)), Worker(w), EventOf(s, t, i)) == []
  {
    var i := Program(s.At(t), c);
    hide Lifecycle, LocksMatch, Handshake, PcTrace, Since, AllAccounted;
    assert !s.Live(w);
    if t == Worker(w) { EndedStops(c); }
    hide Program, NextPc, NextPcs, NextOwners;
  }

  lemma DeliverKeepsTraces(s: State, w: nat, interrupts: bool)
    requires Traces(s) && Deliver(s, w, interrupts).Some?
    ensures Traces(Deliver(s, w, interrupts).value)
  {
    var s' := Deliver(s, w, interrupts).value;
    assert s'.log == s.log && s'.vars.created == s.vars.created;
    forall x: Thread ensures s'.At(x) == s.At(x) || (s.At(x) == Work(Poll) && s'.At(x) == Work(CheckDestroy)) {
    }
    hide Deliver, Since, AllAccounted;
    forall x: Thread ensures PcTrace(s'.At(x), Since(s'.log, x)) {
      assert PcTrace(s.At(x), Since(s.log, x));
    }
  }

  lemma {:induction false} RunKeepsTraces(run: seq<Label>)
    requires After(run).Some?
    ensures Traces(After(run).value)
  {
    if run != [] {
      var before, l := run[..|run| - 1], run[|run| - 1];
      RunKeepsTraces(before);
      RunKeepsInvariant(before);
      var s := After(before).value;
      hide After, Step, Traces, Invariant;
      match l {
        case Run(t, c) => StepKeepsTraces(s, t, c);
        case Signal(w, interrupts) => DeliverKeepsTraces(s, w, interrupts);
      }
    }
  }

  lemma AccountedAt(s: State, r: nat)
    requires Reachable(s) && r < |s.log|
    ensures Accounted(s.log[..r], s.log[r])
    ensures forall x: Thread :: Since(s.log[..r + 1], x) == SinceAfter(Since(s.log[..r], x), x, s.log[r])
  {
    var run :| After(run) == Some(s);
    RunKeepsTraces(run);
    assert Traces(s);
    hide *;
    AccountedIn(s, r);
    SinceStep(s.log, r);
  }

  lemma AccountedIn(s: State, r: nat)
    requires Traces(s) && r < |s.log|
    ensures Accounted(s.log[..r], s.log[r])
  {
    hide Accounted, PcTrace, Since;
  }

  lemma SinceStep(log: seq<Event>, r: nat)
    requires r < |log|
    ensures forall x: Thread :: Since(log[..r + 1], x) == SinceAfter(Since(log[..r], x), x, log[r])
  {
    hide SinceAfter, Since;
    assert log[..r + 1] == log[..r] + [log[r]];
    SinceGrows(log[..r], log[r]);
  }

  // ---------- What the environment decides ----------

  /** Each thing that is not up to the program can go either way, and goes into the history as it went: system calls
      succeed or fail (pthread_kill only for a worker that has ended), a wait times out or is woken, and a message is
      handled as `Uevent` says, whole. */
  lemma EnvironmentDecides(s: State, t: Thread, c: Choice)
    requires Step(s, t, c).Some?
    ensures var pc, s' := s.At(t), Step(s, t, c).value;
            && (pc.Switch? && pc.s.WriteRoleNode? ==> s'.log == s.log + [Event(t, Noted(NodeWritten(pc.s.port, c.ok)))])
            && (pc.Switch? && pc.s.OpenPortType? ==> s'.log == s.log + [Event(t, Noted(Opened(pc.s.port, c.ok)))])
            && (pc.Switch? && pc.s.SeeWrite? ==> s'.log == s.log + [Event(t, Noted(RoleWritten(pc.s.port, c.ok)))])
            && (pc.Switch? && pc.s.Waiting? ==> s'.At(t) == Switch(Waking(pc.s.port, c.ok)))
            && (pc.Switch? && pc.s.NotifySwitch? ==>
                  s'.log == s.log + [Event(t, Noted(Notified(pc.s.outcome, s.vars.callback)))])
            && (pc == Call(KillWorker) ==> s'.At(t) == Call(if s.PollLive() || c.ok then JoinWorker else UnlockSet))
            && (pc == Call(CreateWorker) ==> s'.vars.callback == (s.vars.callback && c.ok)
                                             && s'.vars.created == s.vars.created + if c.ok then 1 else 0)
            && (pc == Work(OpenSocket) ==> s'.log == s.log + [Event(t, Noted(Started(c.ok)))])
            && (pc == Work(Poll) ==>
                  s'.log == s.log + [Event(t, if c.ok then Received(Handled(c.message)) else Noted(PollFailed))])
            && (pc == Work(QueryPorts) ==> s'.log == s.log + [Event(t, Noted(Queried(c.ports)))])
            && (pc.Work? && pc.w.RestoreDrp? && pc.w.ports != [] ==>
                  s'.log == s.log + [Event(t, Noted(LookedUp(pc.w.ports[0], c.ok)))])
  {
    hide Handled;
    assert Enabled(s, Program(s.At(t), c), c);
    if (s.At(t).Switch? && s.At(t).s.Waiting?) || s.At(t) == Call(KillWorker) {
      assert Other(s, Program(s.At(t), c), c) == None;
    }
  }

  // ---------- What the list of a thread's events is ----------

  /** The events of one thread. */
  function Own(log: seq<Event>, t: Thread): seq<What> {
    if log == [] then []
    else Own(log[..|log| - 1], t) + if log[|log| - 1].t == t then [log[|log| - 1].what] else []
  }

  /** The last call or message of thread t began at k. */
  predicate BeganAt(log: seq<Event>, t: Thread, k: nat) {
    && k < |log| && log[k].t == t && Opens(log[k].what)
    && forall j :: k < j < |log| && log[j].t == t ==> !Opens(log[j].what)
  }

  /** From there on they are all its events, and nothing else. */
  lemma {:induction false} SinceIsOwn(log: seq<Event>, t: Thread, k: nat)
    requires BeganAt(log, t, k)
    ensures Since(log, t) == Own(log[k..], t)
    decreases |log|
  {
    hide Opens;
    var n := |log| - 1;
    if k == n {
      assert log[k..] == [log[n]] && [log[n]][..0] == [];
    } else {
      SinceIsOwn(log[..n], t, k);
      assert log[k..][..|log[k..]| - 1] == log[..n][k..];
      assert log[k..][|log[k..]| - 1] == log[n];
    }
  }

  // ---------- What the history of every run looks like ----------

  /** Every switchMode that returns has left, since its switchRole began, exactly the events of one of the four ways a
      mode switch can go, and returns true in exactly one of them. */
  lemma ModeSwitchIsWhole(s: State, r: nat)
    requires Reachable(s) && r < |s.log| && s.log[r].what.ModeReturned?
    ensures exists p, way: Way :: && Since(s.log[..r + 1], s.log[r].t) == Asked(p, true) + ModeSwitch(p, way)
                                  && way.Succeeds? == s.log[r].what.ok
  {
    hide Reachable, Since, Asked, ModeSwitch;
    AccountedAt(s, r);
  }

  /** What its outcome says of the system calls it made, and conversely. */
  predicate Tells(ws: seq<What>, p: Port, ok: bool) {
    && (ok ==> Noted(Opened(p, true)) in ws && Noted(RoleWritten(p, true)) in ws && Noted(Woken(true)) in ws)
    && (Noted(Opened(p, false)) in ws ==> !ok && PartnerUp(false) !in ws && WaitStarted !in ws)
    && (Noted(RoleWritten(p, false)) in ws ==> !ok && WaitStarted !in ws)
    && (!ok <==> Noted(Opened(p, false)) in ws || Noted(RoleWritten(p, false)) in ws || Noted(TimedOut) in ws)
  }

  lemma OutcomeTells(p: Port, way: Way)
    ensures Tells(Asked(p, true) + ModeSwitch(p, way), p, way.Succeeds?)
  {
    match way {
      case CannotOpen => TellsNoOpen(p);
      case CannotWrite => TellsNoWrite(p);
      case Expires(n) => TellsExpired(p, n);
      case Succeeds(n) => TellsSuccess(p, n);
    }
    hide Tells, Asked, ModeSwitch;
  }

  lemma TellsNoOpen(p: Port)
    ensures Tells(Asked(p, true) + ModeSwitch(p, CannotOpen), p, false)
  {
    var ws := Asked(p, true) + ModeSwitch(p, CannotOpen);
    assert ws[2] == Noted(Opened(p, false));
  }

  lemma TellsNoWrite(p: Port)
    ensures Tells(Asked(p, true) + ModeSwitch(p, CannotWrite), p, false)
  {
    var ws := Asked(p, true) + ModeSwitch(p, CannotWrite);
    assert ws[6] == Noted(RoleWritten(p, false));
  }

  /** A wait that ends, with what precedes and what follows the vain wakings. */
  lemma AroundVain(front: seq<What>, n: nat, back: seq<What>, w: What)
    requires w != WaitStarted && w != Locked(PartnerLock) && w != Noted(Woken(false))
    ensures w in front + InVain(n) + back <==> w in front || w in back
  {
    VainEvents(n);
    hide InVain;
  }

  lemma EnteredTells(p: Port)
    ensures var front := Asked(p, true) + Entered(p);
            && Noted(Opened(p, true)) in front && Noted(RoleWritten(p, true)) in front
            && Noted(Opened(p, false)) !in front && Noted(RoleWritten(p, false)) !in front && Noted(TimedOut) !in front
  {
    var front := Asked(p, true) + Entered(p);
    assert front[2] == Noted(Opened(p, true)) && front[6] == Noted(RoleWritten(p, true));
  }

  /** What follows the vain wakings of a mode switch. */
  function AfterVain(p: Port, ok: bool): seq<What> {
    if ok then [WaitStarted, Locked(PartnerLock), Noted(Woken(true)), Unlocked(PartnerLock, None), ModeReturned(true)]
    else [WaitStarted, Locked(PartnerLock), Noted(TimedOut), Unlocked(PartnerLock, None), PortTypeWrite(p, Dual), ModeReturned(false)]
  }

  lemma AroundWait(p: Port, n: nat, ok: bool)
    ensures Asked(p, true) + ModeSwitch(p, if ok then Succeeds(n) else Expires(n))
         == Asked(p, true) + Entered(p) + InVain(n) + AfterVain(p, ok)
  {
    hide InVain, Asked, Entered;
  }

  lemma AfterVainTells(p: Port, ok: bool)
    ensures var back := AfterVain(p, ok);
            && Noted(Opened(p, false)) !in back && Noted(RoleWritten(p, false)) !in back
            && (Noted(TimedOut) in back <==> !ok) && (Noted(Woken(true)) in back <==> ok)
  {
    assert AfterVain(p, ok)[2] == Noted(if ok then Woken(true) else TimedOut);
  }

  lemma TellsExpired(p: Port, n: nat)
    ensures Tells(Asked(p, true) + ModeSwitch(p, Expires(n)), p, false)
  {
    var front, back := Asked(p, true) + Entered(p), AfterVain(p, false);
    AroundWait(p, n, false);
    hide InVain, Asked, Entered, ModeSwitch, AfterVain;
    EnteredTells(p);
    AfterVainTells(p, false);
    AroundVain(front, n, back, Noted(Opened(p, false)));
    AroundVain(front, n, back, Noted(RoleWritten(p, false)));
    AroundVain(front, n, back, Noted(TimedOut));
  }

  lemma TellsSuccess(p: Port, n: nat)
    ensures Tells(Asked(p, true) + ModeSwitch(p, Succeeds(n)), p, true)
  {
    var front, back := Asked(p, true) + Entered(p), AfterVain(p, true);
    AroundWait(p, n, true);
    hide InVain, Asked, Entered, ModeSwitch, AfterVain;
    EnteredTells(p);
    AfterVainTells(p, true);
    AroundVain(front, n, back, Noted(Opened(p, false)));
    AroundVain(front, n, back, Noted(RoleWritten(p, false)));
    AroundVain(front, n, back, Noted(TimedOut));
    AroundVain(front, n, back, Noted(Opened(p, true)));
    AroundVain(front, n, back, Noted(RoleWritten(p, true)));
    AroundVain(front, n, back, Noted(Woken(true)));
  }

  lemma {:induction false} VainEvents(n: nat)
    ensures forall w :: w in InVain(n) ==> w == WaitStarted || w == Locked(PartnerLock) || w == Noted(Woken(false))
  {
    if n > 0 { VainEvents(n - 1); }
  }

  /** Every switchRole that drops mRoleSwitchLock has left exactly the events of a whole call, and reports the outcome of
      its mode switch, or of writing and reading back the node. */
  lemma SwitchRoleIsWhole(s: State, r: nat)
    requires Reachable(s) && r < |s.log| && s.log[r].t.Binder? && s.log[r].what.Unlocked? && s.log[r].what.l == RoleSwitchLock
    ensures IsSwitchCall(Since(s.log[..r + 1], s.log[r].t))
  {
    hide Reachable, Since, IsSwitchCall;
    AccountedAt(s, r);
  }

  /** When a worker drops mRoleSwitchLock, it has handled a whole message: it has looked up every port it had queried, in
      order, and has written "dual" to each that has no partner, and to no other. */
  lemma RestoringIsWhole(s: State, r: nat)
    requires Reachable(s) && r < |s.log| && s.log[r].t.Worker? && s.log[r].what.Unlocked? && s.log[r].what.l == RoleSwitchLock
    ensures exists all, ports, partners: seq<bool> ::
              && |partners| == |ports| && StatusQuery in all
              && Since(s.log[..r + 1], s.log[r].t) ==
                 [Received(all)] + Records(Count(all)) + QueryEvents(ports)
                 + [Locked(RoleSwitchLock)] + Lookups(ports, partners) + [Unlocked(RoleSwitchLock, None)]
  {
    hide Reachable, Since, Records, Count, Lookups;
    AccountedAt(s, r);
    var ws := Since(s.log[..r + 1], s.log[r].t);
    var all, v: Visit :| Proper(all, v) && v.Restored? && ws == MessageEvents(all, v);
    var front := [Received(all)] + Records(Count(all));
    var locked, unlocked := [Locked(RoleSwitchLock)], [Unlocked(RoleSwitchLock, None)];
    assert ws == front + (QueryEvents(v.ports) + locked + Lookups(v.ports, v.partners) + unlocked);
    assert ws == front + QueryEvents(v.ports) + locked + Lookups(v.ports, v.partners) + unlocked;
  }

  /** "dual" is among the writes for exactly the ports without a partner. */
  lemma {:induction false} DualsFor(ports: seq<Port>, partners: seq<bool>, p: Port)
    requires |partners| <= |ports|
    ensures PortTypeWrite(p, Dual) in Lookups(ports, partners) <==> exists i :: 0 <= i < |partners| && ports[i] == p && !partners[i]
  {
    if partners != [] {
      var n := |partners| - 1;
      var front := Lookups(ports, partners[..n]);
      DualsFor(ports, partners[..n], p);
      assert Lookups(ports, partners) == front + Lookup(ports[n], partners[n]);
      hide Lookups;
      LookupHas(ports[n], partners[n], p);
      InEither(front, Lookup(ports[n], partners[n]), PortTypeWrite(p, Dual));
      hide Lookup;
      assert forall i :: 0 <= i < n ==> partners[..n][i] == partners[i];
    }
  }

  lemma LookupHas(q: Port, partner: bool, p: Port)
    ensures PortTypeWrite(p, Dual) in Lookup(q, partner) <==> q == p && !partner
  {
    if !partner { assert Lookup(q, partner)[1] == PortTypeWrite(q, Dual); }
  }

  lemma InEither(a: seq<What>, b: seq<What>, w: What)
    ensures w in a + b <==> w in a || w in b
  {
  }

  /** Calls and messages are whole when the next begins: nothing is left out and nothing is added. */
  lemma EverythingIsWhole(s: State, k: nat)
    requires Reachable(s) && k < |s.log|
    ensures var ws := Since(s.log[..k], s.log[k].t);
            && (s.log[k].what.Noted? && s.log[k].what.n.Begun? ==> ws == [] || IsCall(ws))
            && (s.log[k].what.Received? ==> ws == [Noted(Started(true))] || IsMessage(ws))
  {
    hide Reachable, Since, IsCall, IsMessage;
    AccountedAt(s, k);
  }

  /** A thread between calls has made its last call whole, and one that has ended its last message. */
  lemma RestIsWhole(s: State, t: Thread)
    requires Reachable(s)
    ensures s.At(t) == Idle ==> Since(s.log, t) == [] || IsCall(Since(s.log, t))
    ensures s.At(t) == Ended ==> EndedTrace(Since(s.log, t))
  {
    var run :| After(run) == Some(s);
    RunKeepsTraces(run);
    hide After, Since, IsCall, EndedTrace, AllAccounted;
  }
}
