/** Runs of one binder thread and one worker, step by step. */
module UsbRuns {
  import opened Wrappers
  import opened Uevent
  import opened UsbProtocol
  import opened UsbInvariants
  import opened UsbLifecycle
  import opened UsbHandshake
  import opened UsbReachable

  lemma OneStepMore(run: seq<Label>, t: Thread, c: Choice)
    requires After(run).Some?
    ensures After(run + [Run(t, c)]) == Step(After(run).value, t, c)
  {
    assert (run + [Run(t, c)])[..|run|] == run;
    hide Step;
  }

  /** Call `entry` is what a thread that is idle makes next; every system call succeeds. */
  function Begin(t: Thread, entry: Pc): Label { Run(t, Choice(true, entry, t, "", [])) }

  function Proceed(t: Thread): Label { Run(t, Choice(true, Idle, t, "", [])) }

  /** After a run only one binder thread and one worker have moved; they are at two given points. */
  ghost predicate On(run: seq<Label>, bpc: Pc, wpc: Pc, v: Vars) {
    After(run).Some? && var s := After(run).value;
    && s.At(Binder(0)) == bpc && s.At(Worker(0)) == wpc && s.vars == v
    && (forall l: Lock :: l in s.owners <==> Holds(bpc, l) || Holds(wpc, l))
    && (forall x: Thread :: x != Binder(0) && x != Worker(0) ==> !IsWaiting(s.At(x)))
  }

  /** What can be done whatever third threads do, if the other of the two is at a given point. */
  predicate Plain(i: Instr, other: Pc) {
    && !i.Stop? && !i.TryTake? && !i.SignalWaiter? && !i.Kill? && !i.Join? && !i.Create?
    && (i.Take? ==> !Holds(other, i.l))
  }

  function Blank(v: Vars): State { State(map[], map[], v, []) }

  ghost function LogOf(run: seq<Label>): seq<Event> {
    if After(run).Some? then After(run).value.log else []
  }

  /** One step of the binder thread, then one of the worker. */
  lemma BinderMoves(run: seq<Label>, n: nat, bpc: Pc, wpc: Pc, v: Vars)
    requires n < |run| && On(run[..n], bpc, wpc, v) && run[n].Run? && run[n].t == Binder(0)
    requires Plain(Program(bpc, run[n].c), wpc)
    ensures var c := run[n].c;
            var i := Program(bpc, c);
            && On(run[..n + 1], NextPc(Blank(v), i, c), wpc, NextVars(Blank(v), i, c))
            && LogOf(run[..n + 1]) == LogOf(run[..n]) + NextEvents(Blank(v), Binder(0), i)
  {
    var s, c := After(run[..n]).value, run[n].c;
    assert run[..n + 1] == run[..n] + [run[n]];
    OneStepMore(run[..n], Binder(0), c);
    RunKeepsInvariant(run[..n]);
    MovesPlainly(s, Binder(0), Worker(0), c, v);
    hide Program, After, Step, Holds, NextPc, NextVars, NextEvents, Invariant, Plain, LocksMatch;
  }

  lemma WorkerMoves(run: seq<Label>, n: nat, bpc: Pc, wpc: Pc, v: Vars)
    requires n < |run| && On(run[..n], bpc, wpc, v) && run[n].Run? && run[n].t == Worker(0)
    requires Plain(Program(wpc, run[n].c), bpc)
    ensures var c := run[n].c;
            var i := Program(wpc, c);
            && On(run[..n + 1], bpc, NextPc(Blank(v), i, c), NextVars(Blank(v), i, c))
            && LogOf(run[..n + 1]) == LogOf(run[..n]) + NextEvents(Blank(v), Worker(0), i)
  {
    var s, c := After(run[..n]).value, run[n].c;
    assert run[..n + 1] == run[..n] + [run[n]];
    OneStepMore(run[..n], Worker(0), c);
    RunKeepsInvariant(run[..n]);
    MovesPlainly(s, Worker(0), Binder(0), c, v);
    hide Program, After, Step, Holds, NextPc, NextVars, NextEvents, Invariant, Plain, LocksMatch;
  }

  /** The locks are held by two threads only. */
  ghost predicate HeldByTwo(s: State, t: Thread, u: Thread) {
    forall l: Lock :: l in s.owners <==> Holds(s.At(t), l) || Holds(s.At(u), l)
  }

  /** A plain step of t is always possible; it moves nothing else. */
  lemma MovesPlainly(s: State, t: Thread, u: Thread, c: Choice, v: Vars)
    requires Invariant(s) && HeldByTwo(s, t, u) && t != u && s.vars == v && Plain(Program(s.At(t), c), s.At(u))
    ensures Step(s, t, c).Some?
    ensures var s', i := Step(s, t, c).value, Program(s.At(t), c);
            && s'.At(t) == NextPc(Blank(v), i, c) && s'.vars == NextVars(Blank(v), i, c)
            && (forall x: Thread :: x != t ==> s'.At(x) == s.At(x))
            && HeldByTwo(s', t, u)
            && s'.log == s.log + NextEvents(Blank(v), t, i)
  {
    var i := Program(s.At(t), c);
    hide Lifecycle, Handshake, WellTyped, LocksMatch;
    forall l: Lock ensures AccountsFor(s.At(t), i, l) {
      Accounts(s.At(t), c, l);
    }
    assert i.Take? ==> AccountsFor(s.At(t), i, i.l);
    assert Enabled(s, i, c);
    Moves(s, t, i, c);
    ForgetsTheRest(s, v, t, i, c);
    var s' := Step(s, t, c).value;
    forall l: Lock ensures l in s'.owners <==> Holds(s'.At(t), l) || Holds(s'.At(u), l) {
      assert AccountsFor(s.At(t), i, l);
      OwnersOfTwo(s, t, u, i, c, l);
    }
    hide Program, Holds, NextPcs, NextPc, NextVars, NextEvents, NextOwners, AccountsFor;
  }

  lemma ForgetsTheRest(s: State, v: Vars, t: Thread, i: Instr, c: Choice)
    requires s.vars == v && !i.TryTake? && !i.SignalWaiter? && !i.Kill? && !i.Join? && !i.Create?
    ensures NextPc(s, i, c) == NextPc(Blank(v), i, c) && NextVars(s, i, c) == NextVars(Blank(v), i, c)
    ensures NextEvents(s, t, i) == NextEvents(Blank(v), t, i) && Other(s, i, c) == None
  {
  }

  lemma OwnersOfTwo(s: State, t: Thread, u: Thread, i: Instr, c: Choice, l: Lock)
    requires LocksMatch(s) && HeldByTwo(s, t, u) && t != u && AccountsFor(s.At(t), i, l) && Plain(i, s.At(u))
    ensures l in NextOwners(s, t, i) <==> Holds(NextPc(s, i, c), l) || Holds(s.At(u), l)
  {
    Exclusive(s, t, u, l);
    hide Holds, LocksMatch;
  }

  lemma WorkerStarts(run: seq<Label>, n: nat, v: Vars)
    requires n < |run| && On(run[..n], Call(CreateWorker), Ended, v) && v.created == 0 && run[n] == Proceed(Binder(0))
    ensures On(run[..n + 1], Call(UnlockSet), Work(OpenSocket), v.(poll := Some(0), created := 1))
    ensures LogOf(run[..n + 1]) == LogOf(run[..n])
  {
    var s, c := After(run[..n]).value, run[n].c;
    assert run[..n + 1] == run[..n] + [run[n]];
    OneStepMore(run[..n], Binder(0), c);
    CreateStep(s, c);
    forall l: Lock ensures Holds(Call(CreateWorker), l) == Holds(Call(UnlockSet), l) && !Holds(Ended, l) && !Holds(Work(OpenSocket), l) {
    }
    hide After, Step, Holds;
  }

  lemma CreateStep(s: State, c: Choice)
    requires s.At(Binder(0)) == Call(CreateWorker) && c.ok && s.vars.created == 0
    ensures Step(s, Binder(0), c).Some?
    ensures var s' := Step(s, Binder(0), c).value;
            && s'.owners == s.owners && s'.log == s.log && s'.vars == s.vars.(poll := Some(0), created := 1)
            && s'.At(Binder(0)) == Call(UnlockSet) && s'.At(Worker(0)) == Work(OpenSocket)
            && forall x: Thread :: x != Binder(0) && x != Worker(0) ==> s'.At(x) == s.At(x)
  {
    var i := Create(Call(UnlockSet), Call(UnlockSet));
    assert Program(s.At(Binder(0)), c) == i;
    hide Program;
    Moves(s, Binder(0), i, c);
    hide NextPcs;
  }

  /** The worker's signal wakes the binder thread, which waits. */
  lemma WorkerSignals(run: seq<Label>, n: nat, port: Port, todo: seq<Action>, v: Vars)
    requires n < |run| && On(run[..n], Switch(Waiting(port)), Work(SignalPartner(todo)), v)
    requires run[n].Run? && run[n].t == Worker(0) && run[n].c.waiter == Binder(0)
    ensures On(run[..n + 1], Switch(Waking(port, false)), Work(UnlockPartnerSet(todo)), v)
    ensures LogOf(run[..n + 1]) == LogOf(run[..n])
  {
    var s, c := After(run[..n]).value, run[n].c;
    assert run[..n + 1] == run[..n] + [run[n]];
    OneStepMore(run[..n], Worker(0), c);
    SignalStep(s, c, port, todo);
    forall l: Lock
      ensures Holds(Switch(Waking(port, false)), l) == Holds(Switch(Waiting(port)), l)
      ensures Holds(Work(UnlockPartnerSet(todo)), l) == Holds(Work(SignalPartner(todo)), l)
    {
    }
    hide After, Step, Holds, Program;
  }

  lemma SignalStep(s: State, c: Choice, port: Port, todo: seq<Action>)
    requires s.At(Binder(0)) == Switch(Waiting(port)) && s.At(Worker(0)) == Work(SignalPartner(todo)) && c.waiter == Binder(0)
    ensures Step(s, Worker(0), c).Some?
    ensures var s' := Step(s, Worker(0), c).value;
            && s'.owners == s.owners && s'.log == s.log && s'.vars == s.vars
            && s'.At(Binder(0)) == Switch(Waking(port, false)) && s'.At(Worker(0)) == Work(UnlockPartnerSet(todo))
            && forall x: Thread :: x != Binder(0) && x != Worker(0) ==> s'.At(x) == s.At(x)
  {
    var i := SignalWaiter(Work(UnlockPartnerSet(todo)));
    assert Program(s.At(Worker(0)), c) == i;
    hide Program;
    Moves(s, Worker(0), i, c);
    hide NextPcs;
  }

  // ---------- The first message ----------

  /** The variables once a callback is registered and the first worker created. */
  const REGISTERED := Vars(false, false, true, Some(0), 1, {}, {})

  /** A callback is registered; the worker starts, receives a message, and turns to its first record. */
  function FirstMessage(message: string): seq<Label> {
    var b, w := Binder(0), Worker(0);
    [Begin(b, Call(LockToSet(true))), Proceed(b), Proceed(b), Proceed(b), Proceed(b), Proceed(b),
     Proceed(w), Proceed(w), Run(w, Choice(true, Idle, w, message, [])), Proceed(w)]
  }

  lemma Requests(run: seq<Label>, message: string)
    requires run == FirstMessage(message)
    ensures On(run[..2], Call(SetCallback(true)), Ended, Init.vars)
  {
    var v := Init.vars;
    assert On(run[..0], Idle, Ended, v);
    hide On, LogOf, After, SwitchProgram, WorkProgram;
    BinderMoves(run, 0, Idle, Ended, v);
    BinderMoves(run, 1, Call(LockToSet(true)), Ended, v);
  }

  lemma Assigns(run: seq<Label>, message: string)
    requires run == FirstMessage(message)
    ensures On(run[..4], Call(CreateWorker), Ended, Init.vars.(callback := true))
  {
    Requests(run, message);
    var v := Init.vars;
    hide On, LogOf, After, SwitchProgram, WorkProgram;
    BinderMoves(run, 2, Call(SetCallback(true)), Ended, v);
    ClearsDestroy(run, message, v.(callback := true));
  }

  lemma ClearsDestroy(run: seq<Label>, message: string, v: Vars)
    requires run == FirstMessage(message) && On(run[..3], Call(ClearDestroy), Ended, v)
    ensures On(run[..4], Call(CreateWorker), Ended, v.(destroyThread := false))
  {
    hide On, LogOf, After, SwitchProgram, WorkProgram;
    BinderMoves(run, 3, Call(ClearDestroy), Ended, v);
  }

  lemma Registers(run: seq<Label>, message: string)
    requires run == FirstMessage(message)
    ensures On(run[..6], Idle, Work(OpenSocket), REGISTERED)
  {
    Assigns(run, message);
    var v := Init.vars.(callback := true);
    hide On, LogOf, After, SwitchProgram, WorkProgram;
    WorkerStarts(run, 4, v);
    UnlocksSet(run, message, v.(poll := Some(0), created := 1));
  }

  lemma UnlocksSet(run: seq<Label>, message: string, v: Vars)
    requires run == FirstMessage(message) && On(run[..5], Call(UnlockSet), Work(OpenSocket), v)
    ensures On(run[..6], Idle, Work(OpenSocket), v)
  {
    hide On, LogOf, After, SwitchProgram, WorkProgram;
    BinderMoves(run, 5, Call(UnlockSet), Work(OpenSocket), v);
  }

  lemma Opens(run: seq<Label>, message: string)
    requires run == FirstMessage(message)
    ensures On(run[..7], Idle, Work(CheckDestroy), REGISTERED)
  {
    Registers(run, message);
    hide On, LogOf, After, SwitchProgram, CallProgram;
    WorkerMoves(run, 6, Idle, Work(OpenSocket), REGISTERED);
  }

  lemma AtPoll(message: string)
    ensures On(FirstMessage(message)[..8], Idle, Work(Poll), REGISTERED)
  {
    var run := FirstMessage(message);
    Opens(run, message);
    hide On, LogOf, After, SwitchProgram, CallProgram;
    WorkerMoves(run, 7, Idle, Work(CheckDestroy), REGISTERED);
  }

  lemma Receives(run: seq<Label>, message: string)
    requires run == FirstMessage(message)
    ensures On(run[..9], Idle, Work(Scan(Handled(message))), REGISTERED)
  {
    AtPoll(message);
    hide On, LogOf, After, SwitchProgram, CallProgram, Handled;
    WorkerMoves(run, 8, Idle, Work(Poll), REGISTERED);
  }

  /** The worker is about to query, or to take mPartnerLock for a partner record. */
  lemma FirstMessageReached(message: string, a: Action)
    requires Handled(message) == [a]
    ensures On(FirstMessage(message), Idle, Work(if a == PartnerAdded then LockPartnerToSet([]) else LockToQuery), REGISTERED)
  {
    var run := FirstMessage(message);
    assert run[..10] == run;
    Receives(run, message);
    assert run[9] == Proceed(Worker(0)) && [a][1..] == [];
    hide On, LogOf, After, SwitchProgram, CallProgram, Handled, FirstMessage;
    WorkerMoves(run, 9, Idle, Work(Scan([a])), REGISTERED);
  }
}
