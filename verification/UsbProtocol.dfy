/** The threads of the USB service as a transition system: binder threads in switchRole, in calls that only take
    mLock, and in setCallback; worker threads that receive uevents (usb/usb/Usb.cpp:49, 104-207, 314-445, 648-682,
    714-871). `Program` is what each thread does at each program point; `Exec` is what that does to the shared state.
    One step is one lock operation, one access to shared state, or one system call. */
module UsbProtocol {
  import opened Wrappers
  import opened Uevent

  datatype Thread = Binder(id: nat) | Worker(id: nat)

  /** mRoleSwitchLock, mPartnerLock and mLock. */
  datatype Lock = RoleSwitchLock | PartnerLock | CallbackLock

  type Port = string

  /** What switchRole reports: the port, whether it was a mode switch, and whether it succeeded. */
  datatype Outcome = Outcome(port: Port, mode: bool, ok: bool)

  /** Program points of switchRole and, from OpenPortType on, of switchMode within it. */
  datatype SwitchPc =
    | LockRole(port: Port, mode: bool)
    | WriteRoleNode(port: Port)
    | LockToNotify(outcome: Outcome)
    | NotifySwitch(outcome: Outcome)
    | UnlockNotified(outcome: Outcome)
    | UnlockRole(outcome: Outcome)
    | OpenPortType(port: Port)
    | LockPartner(port: Port)
    | ClearPartnerUp(port: Port)
    | WriteRole(port: Port)
    | SeeWrite(port: Port)
    | StartWait(port: Port)
    | Waiting(port: Port)
    | Waking(port: Port, timedOut: bool)
    | CheckPartnerUp(port: Port, timedOut: bool)
    | UnlockPartner(port: Port, ok: bool)
    | SwitchToDrp(port: Port)
    | ReturnMode(port: Port, ok: bool)

  /** Program points of the other binder calls: those that take mLock once or more and nothing else, and setCallback. */
  datatype CallPc =
    | LockSection(sections: nat)
    | UnlockSection(sections: nat)
    | LockToSet(register: bool)
    | SetCallback(register: bool)
    | KillWorker
    | JoinWorker
    | ClearDestroy
    | CreateWorker
    | UnlockSet

  /** Program points of a worker. */
  datatype WorkPc =
    | OpenSocket
    | CheckDestroy
    | Poll
    | Scan(todo: seq<Action>)
    | LockPartnerToSet(todo: seq<Action>)
    | SetPartnerUp(todo: seq<Action>)
    | SignalPartner(todo: seq<Action>)
    | UnlockPartnerSet(todo: seq<Action>)
    | LockToQuery
    | QueryPorts
    | UnlockQuery(ports: seq<Port>)
    | TryLockRole(ports: seq<Port>)
    | RestoreDrp(ports: seq<Port>)
    | WriteDual(port: Port, ports: seq<Port>)
    | UnlockRestored

  /** Where a thread is: what it is about to do. A binder thread between calls is idle. */
  datatype Pc = Idle | Switch(s: SwitchPc) | Call(k: CallPc) | Work(w: WorkPc) | Ended

  // ---------- The program ----------

  /** What is written to a port_type node: a role, or "dual". */
  datatype PortType = Role | Dual

  /** What a thread comes to know: the call that is made, and the outcomes of system calls. */
  datatype Notice =
    | Begun(entry: Pc)
    | NodeWritten(port: Port, ok: bool)                // written and read back, for power and data roles
    | Opened(port: Port, ok: bool)                     // fopen of the port_type node
    | RoleWritten(port: Port, ok: bool)                // fputs to it
    | TimedOut
    | Woken(up: bool)                                  // with mPartnerUp as it was found
    | Notified(outcome: Outcome, told: bool)           // told if a callback is set
    | Started(ok: bool)                                // the worker's sockets
    | PollFailed
    | Queried(ports: seq<Port>)
    | LookedUp(port: Port, partner: bool)              // opendir of the port's partner directory

  /** One instruction; it names the program point that follows, one for each way it can go. */
  datatype Instr =
    | Stop
    | Goto(next: Pc)
    | Note(n: Notice, next: Pc)                        // a system call without effect on the shared state
    | Notify(outcome: Outcome, next: Pc)               // the callback, if it is set
    | Take(l: Lock, next: Pc)                          // pthread_mutex_lock
    | TryTake(l: Lock, next: Pc, otherwise: Pc)        // pthread_mutex_trylock
    | Drop(l: Lock, done: Option<Outcome>, next: Pc)   // pthread_mutex_unlock
    | AssignPartnerUp(up: bool, next: Pc)
    | TestPartnerUp(next: Pc, otherwise: Pc)
    | Wait(next: Pc)                                   // pthread_cond_timedwait, up to its blocking
    | SignalWaiter(next: Pc)                           // pthread_cond_signal
    | WritePortType(port: Port, text: PortType, next: Pc)
    | Return(ok: bool, next: Pc)
    | AssignCallback(set_: bool, next: Pc, otherwise: Pc)
    | Kill(next: Pc, otherwise: Pc)                    // pthread_kill
    | Join(next: Pc)                                   // pthread_join
    | AssignDestroy(next: Pc)
    | TestDestroy(next: Pc, otherwise: Pc)
    | Create(next: Pc, otherwise: Pc)                  // pthread_create
    | Receive(todo: seq<Action>, next: Pc)             // epoll_wait and the read of a uevent

  /** What the scheduler, the system calls and the callers decide: the outcome of a call, the call a binder thread
      makes next, the waiter a signal wakes, the bytes of a uevent, and the ports a query finds. */
  datatype Choice = Choice(ok: bool, entry: Pc, waiter: Thread, message: string, ports: seq<Port>)

  predicate IsEntry(pc: Pc) {
    (pc.Switch? && pc.s.LockRole?) || (pc.Call? && (pc.k.LockSection? || pc.k.LockToSet?))
  }

  function SwitchProgram(pc: SwitchPc, c: Choice): Instr {
    match pc
    case LockRole(p, mode) => Take(RoleSwitchLock, if mode then Switch(OpenPortType(p)) else Switch(WriteRoleNode(p)))
    case WriteRoleNode(p) => Note(NodeWritten(p, c.ok), Switch(LockToNotify(Outcome(p, false, c.ok))))
    case LockToNotify(o) => Take(CallbackLock, Switch(NotifySwitch(o)))
    case NotifySwitch(o) => Notify(o, Switch(UnlockNotified(o)))
    case UnlockNotified(o) => Drop(CallbackLock, None, Switch(UnlockRole(o)))
    case UnlockRole(o) => Drop(RoleSwitchLock, Some(o), Idle)

    case OpenPortType(p) => Note(Opened(p, c.ok), if c.ok then Switch(LockPartner(p)) else Switch(SwitchToDrp(p)))
    case LockPartner(p) => Take(PartnerLock, Switch(ClearPartnerUp(p)))
    case ClearPartnerUp(p) => AssignPartnerUp(false, Switch(WriteRole(p)))
    case WriteRole(p) => WritePortType(p, Role, Switch(SeeWrite(p)))
    case SeeWrite(p) => Note(RoleWritten(p, c.ok), if c.ok then Switch(StartWait(p)) else Switch(UnlockPartner(p, false)))
    case StartWait(p) => Wait(Switch(Waiting(p)))
    case Waiting(p) => Goto(Switch(Waking(p, c.ok)))  // the timeout, or a spurious wakeup
    case Waking(p, timedOut) => Take(PartnerLock, Switch(CheckPartnerUp(p, timedOut)))
    case CheckPartnerUp(p, timedOut) =>
      if timedOut then Note(TimedOut, Switch(UnlockPartner(p, false)))
      else TestPartnerUp(Switch(UnlockPartner(p, true)), Switch(StartWait(p)))
    case UnlockPartner(p, ok) => Drop(PartnerLock, None, if ok then Switch(ReturnMode(p, true)) else Switch(SwitchToDrp(p)))
    case SwitchToDrp(p) => WritePortType(p, Dual, Switch(ReturnMode(p, false)))
    case ReturnMode(p, ok) => Return(ok, Switch(LockToNotify(Outcome(p, true, ok))))
  }

  function CallProgram(pc: CallPc, c: Choice): Instr {
    match pc
    case LockSection(n) => Take(CallbackLock, Call(UnlockSection(n)))
    case UnlockSection(n) => Drop(CallbackLock, None, if n > 0 then Call(LockSection(n - 1)) else Idle)

    case LockToSet(register) => Take(CallbackLock, Call(SetCallback(register)))
    case SetCallback(register) => AssignCallback(register, if register then Call(ClearDestroy) else Call(KillWorker), Call(UnlockSet))
    case KillWorker => Kill(Call(JoinWorker), Call(UnlockSet))
    case JoinWorker => Join(Call(UnlockSet))
    case ClearDestroy => AssignDestroy(Call(CreateWorker))
    case CreateWorker => Create(Call(UnlockSet), Call(UnlockSet))
    case UnlockSet => Drop(CallbackLock, None, Idle)
  }

  function WorkProgram(pc: WorkPc, c: Choice): Instr {
    match pc
    case OpenSocket => Note(Started(c.ok), if c.ok then Work(CheckDestroy) else Ended)
    case CheckDestroy => TestDestroy(Ended, Work(Poll))
    case Poll => if c.ok then Receive(Handled(c.message), Work(Scan(Handled(c.message)))) else Note(PollFailed, Ended)
    case Scan(todo) =>
      Goto(if todo == [] then Work(CheckDestroy)
           else if todo[0] == PartnerAdded then Work(LockPartnerToSet(todo[1..]))
           else Work(LockToQuery))
    case LockPartnerToSet(todo) => Take(PartnerLock, Work(SetPartnerUp(todo)))
    case SetPartnerUp(todo) => AssignPartnerUp(true, Work(SignalPartner(todo)))
    case SignalPartner(todo) => SignalWaiter(Work(UnlockPartnerSet(todo)))
    case UnlockPartnerSet(todo) => Drop(PartnerLock, None, Work(Scan(todo)))
    case LockToQuery => Take(CallbackLock, Work(QueryPorts))
    case QueryPorts => Note(Queried(c.ports), Work(UnlockQuery(c.ports)))
    case UnlockQuery(ports) => Drop(CallbackLock, None, Work(TryLockRole(ports)))
    case TryLockRole(ports) => TryTake(RoleSwitchLock, Work(RestoreDrp(ports)), Work(CheckDestroy))
    case RestoreDrp(ports) =>
      if ports == [] then Goto(Work(UnlockRestored))
      else Note(LookedUp(ports[0], c.ok), if c.ok then Work(RestoreDrp(ports[1..])) else Work(WriteDual(ports[0], ports[1..])))
    case WriteDual(p, ports) => WritePortType(p, Dual, Work(RestoreDrp(ports)))
    case UnlockRestored => Drop(RoleSwitchLock, None, Work(CheckDestroy))
  }

  function Program(pc: Pc, c: Choice): Instr {
    match pc
    case Idle => if IsEntry(c.entry) then Note(Begun(c.entry), c.entry) else Stop
    case Switch(p) => SwitchProgram(p, c)
    case Call(p) => CallProgram(p, c)
    case Work(p) => WorkProgram(p, c)
    case Ended => Stop
  }

  // ---------- The machine ----------

  /** What happened, in order: history the code does not keep. */
  datatype Event = Event(t: Thread, what: What)
  datatype What =
    | Locked(l: Lock)
    | Unlocked(l: Lock, done: Option<Outcome>)
    | PartnerUp(up: bool)
    | WaitStarted
    | PortTypeWrite(port: Port, text: PortType)
    | ModeReturned(ok: bool)
    | Received(todo: seq<Action>)
    | Noted(n: Notice)

  /** The variables the threads share. */
  datatype Vars = Vars(
    partnerUp: bool,               // mPartnerUp
    destroyThread: bool,
    callback: bool,                // mCallback != NULL
    poll: Option<nat>,             // mPoll: the last worker created
    created: nat,                  // how many workers have been created
    joined: set<nat>,              // the workers that have been joined
    signalled: set<nat>)           // the workers with a pending SIGUSR1

  /** Threads that have not run are idle or not created; a lock nobody holds has no owner. */
  datatype State = State(pcs: map<Thread, Pc>, owners: map<Lock, Thread>, vars: Vars, log: seq<Event>)
  {
    function At(t: Thread): Pc {
      if t in pcs then pcs[t] else if t.Binder? then Idle else Ended
    }

    predicate Live(w: nat) { At(Worker(w)) != Ended }

    predicate PollLive() { vars.poll.Some? && Live(vars.poll.value) }
  }

  const Init := State(map[], map[], Vars(false, false, false, None, 0, {}, {}), [])

  predicate IsWaiting(pc: Pc) {
    pc.Switch? && pc.s.Waiting?
  }

  ghost predicate SomeWaiter(s: State) {
    exists u: Thread :: IsWaiting(s.At(u))
  }

  /** Whether thread t can go on: it does not wait for a lock or for a worker. A signal wakes some waiter if there
      is one. */
  ghost predicate Enabled(s: State, i: Instr, c: Choice) {
    match i
    case Stop => false
    case Take(l, _) => l !in s.owners
    case Join(_) => !s.PollLive()
    case SignalWaiter(_) => SomeWaiter(s) ==> IsWaiting(s.At(c.waiter))
    case _ => true
  }

  /** Which way the instruction goes. */
  function NextPc(s: State, i: Instr, c: Choice): Pc {
    match i
    case Stop => Ended
    case TryTake(l, pc, otherwise) => if l in s.owners then otherwise else pc
    case TestPartnerUp(pc, otherwise) => if s.vars.partnerUp then pc else otherwise
    case AssignCallback(set_, pc, otherwise) => if s.vars.callback == set_ then otherwise else pc
    case Kill(pc, otherwise) => if s.PollLive() || c.ok then pc else otherwise
    case TestDestroy(pc, otherwise) => if s.vars.destroyThread then pc else otherwise
    case Create(pc, otherwise) => if c.ok then pc else otherwise
    case _ => i.next
  }

  /** The second thread an instruction moves: the waiter a signal wakes, or the worker that is created. */
  function Other(s: State, i: Instr, c: Choice): Option<(Thread, Pc)> {
    if i.SignalWaiter? && IsWaiting(s.At(c.waiter)) then Some((c.waiter, Switch(Waking(s.At(c.waiter).s.port, false))))
    else if i.Create? && c.ok then Some((Worker(s.vars.created), Work(OpenSocket)))
    else None
  }

  function NextPcs(s: State, t: Thread, i: Instr, c: Choice): map<Thread, Pc> {
    match Other(s, i, c)
    case None => s.pcs[t := NextPc(s, i, c)]
    case Some(u) => s.pcs[u.0 := u.1][t := NextPc(s, i, c)]
  }

  function NextOwners(s: State, t: Thread, i: Instr): map<Lock, Thread> {
    if (i.Take? || i.TryTake?) && i.l !in s.owners then s.owners[i.l := t]
    else if i.Drop? then s.owners - {i.l}
    else if i.Wait? then s.owners - {PartnerLock}
    else s.owners
  }

  function NextVars(s: State, i: Instr, c: Choice): Vars {
    var v := s.vars;
    match i
    case AssignPartnerUp(up, _) => v.(partnerUp := up)
    case AssignCallback(set_, _, _) => v.(callback := set_)
    case Kill(_, _) => if s.PollLive() then v.(signalled := v.signalled + {v.poll.value}) else v
    case Join(_) => if v.poll.Some? then v.(joined := v.joined + {v.poll.value}) else v
    case AssignDestroy(_) => v.(destroyThread := false)
    case Create(_, _) => if c.ok then v.(poll := Some(v.created), created := v.created + 1) else v.(callback := false)
    case _ => v
  }

  function NextEvents(s: State, t: Thread, i: Instr): seq<Event> {
    match i
    case Take(l, _) => [Event(t, Locked(l))]
    case TryTake(l, _, _) => if l in s.owners then [] else [Event(t, Locked(l))]
    case Drop(l, done, _) => [Event(t, Unlocked(l, done))]
    case AssignPartnerUp(up, _) => [Event(t, PartnerUp(up))]
    case Wait(_) => [Event(t, WaitStarted)]
    case WritePortType(p, text, _) => [Event(t, PortTypeWrite(p, text))]
    case Return(ok, _) => [Event(t, ModeReturned(ok))]
    case Receive(todo, _) => [Event(t, Received(todo))]
    case Note(n, _) => [Event(t, Noted(n))]
    case Notify(o, _) => [Event(t, Noted(Notified(o, s.vars.callback)))]
    case TestPartnerUp(_, _) => [Event(t, Noted(Woken(s.vars.partnerUp)))]
    case _ => []
  }

  /** One instruction of thread t; None when it cannot go on. */
  ghost function Exec(s: State, t: Thread, i: Instr, c: Choice): Option<State> {
    if !Enabled(s, i, c) then None
    else Some(State(NextPcs(s, t, i, c), NextOwners(s, t, i), NextVars(s, i, c), s.log + NextEvents(s, t, i)))
  }

  ghost function Step(s: State, t: Thread, c: Choice): Option<State> {
    Exec(s, t, Program(s.At(t), c), c)
  }

  /** The signal handler runs in a worker: within epoll_wait it may interrupt the call, or come just before it. */
  function Deliver(s: State, w: nat, interrupts: bool): Option<State> {
    if w in s.vars.signalled && s.Live(w) then
      var vars := s.vars.(destroyThread := true, signalled := s.vars.signalled - {w});
      Some(s.(vars := vars, pcs := if interrupts && s.At(Worker(w)) == Work(Poll)
                                   then s.pcs[Worker(w) := Work(CheckDestroy)] else s.pcs))
    else None
  }

  datatype Label = Run(t: Thread, c: Choice) | Signal(w: nat, interrupts: bool)

  ghost function Next(s: State, l: Label): Option<State> {
    match l
    case Run(t, c) => Step(s, t, c)
    case Signal(w, interrupts) => Deliver(s, w, interrupts)
  }

  /** The state after a run from the initial one; None if some label has no step. */
  ghost function After(run: seq<Label>): Option<State> {
    if run == [] then Some(Init)
    else match After(run[..|run| - 1])
      case None => None
      case Some(s) => Next(s, run[|run| - 1])
  }

  ghost predicate Reachable(s: State) {
    exists run :: After(run) == Some(s)
  }
}
