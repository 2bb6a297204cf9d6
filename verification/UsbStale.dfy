/** A role switch that succeeds on a partner record received before it began (usb/usb/Usb.cpp:314-365, 714-735). */
module UsbStale {
  import opened Wrappers
  import opened Uevent
  import opened UsbProtocol
  import opened UsbInvariants
  import opened UsbHandshake
  import opened UsbReachable
  import opened UsbTraces
  import opened UsbReceipts
  import opened UsbRuns

  /** A mode switch up to its wait; the worker, which has a partner record in hand, serves it; the switch returns. */
  function StaleSwitch(p: Port): (ls: seq<Label>)
    ensures |ls| == 16
  {
    var b, w := Binder(0), Worker(0);
    [Begin(b, Switch(LockRole(p, true))), Proceed(b), Proceed(b), Proceed(b), Proceed(b), Proceed(b), Proceed(b), Proceed(b),
     Proceed(w), Proceed(w), Run(w, Choice(true, Idle, b, "", [])), Proceed(w),
     Proceed(b), Proceed(b), Proceed(b), Proceed(b)]
  }

  /** What it leaves in the history. */
  function StaleEvents(p: Port): (es: seq<Event>)
    ensures |es| == 15
  {
    var b, w := Binder(0), Worker(0);
    [Event(b, Noted(Begun(Switch(LockRole(p, true))))), Event(b, Locked(RoleSwitchLock)), Event(b, Noted(Opened(p, true))),
     Event(b, Locked(PartnerLock)), Event(b, PartnerUp(false)), Event(b, PortTypeWrite(p, Role)),
     Event(b, Noted(RoleWritten(p, true))), Event(b, WaitStarted),
     Event(w, Locked(PartnerLock)), Event(w, PartnerUp(true)), Event(w, Unlocked(PartnerLock, None)),
     Event(b, Locked(PartnerLock)), Event(b, Noted(Woken(true))), Event(b, Unlocked(PartnerLock, None)),
     Event(b, ModeReturned(true))]
  }

  /** A run that goes on with such a switch, and how much of it has been done. */
  ghost predicate Going(run: seq<Label>, n: nat, p: Port, done: nat, events: nat, bpc: SwitchPc, wpc: WorkPc, v: Vars) {
    && n + 16 == |run| && run[n..] == StaleSwitch(p) && done <= 16 && events <= 15
    && On(run[..n + done], Switch(bpc), Work(wpc), v)
    && LogOf(run[..n + done]) == LogOf(run[..n]) + StaleEvents(p)[..events]
  }

  /** The events of a step are the next of the list, if any. */
  predicate NextOnes(p: Port, events: nat, es: seq<Event>) {
    events + |es| <= 15 && |es| <= 1 && (es == [] || es[0] == StaleEvents(p)[events])
  }

  lemma MoreEvents(log0: seq<Event>, p: Port, k: nat, es: seq<Event>)
    requires k <= 15 && NextOnes(p, k, es)
    ensures log0 + StaleEvents(p)[..k] + es == log0 + StaleEvents(p)[..k + |es|]
  {
    var all := StaleEvents(p);
    hide StaleEvents;
    if es == [] {
    } else {
      assert all[..k + 1] == all[..k] + es;
    }
  }

  lemma LabelAt(run: seq<Label>, n: nat, p: Port, done: nat)
    requires n + 16 == |run| && run[n..] == StaleSwitch(p) && done < 16
    ensures run[n + done] == StaleSwitch(p)[done]
  {
    hide StaleSwitch;
    assert run[n..][done] == run[n + done];
  }

  lemma ProgramOfSwitch(p: SwitchPc, c: Choice)
    ensures Program(Switch(p), c) == SwitchProgram(p, c)
  {
    hide SwitchProgram, CallProgram, WorkProgram;
  }

  lemma ProgramOfWork(p: WorkPc, c: Choice)
    ensures Program(Work(p), c) == WorkProgram(p, c)
  {
    hide SwitchProgram, CallProgram, WorkProgram;
  }

  lemma BinderGoes(run: seq<Label>, n: nat, p: Port, done: nat, events: nat, bpc: SwitchPc, wpc: WorkPc, v: Vars,
                   next: SwitchPc)
    requires Going(run, n, p, done, events, bpc, wpc, v) && done < 16
    requires StaleSwitch(p)[done].Run? && StaleSwitch(p)[done].t == Binder(0)
    requires var c := StaleSwitch(p)[done].c;
             var i := SwitchProgram(bpc, c);
             && Plain(i, Work(wpc)) && NextPc(Blank(v), i, c) == Switch(next)
             && NextOnes(p, events, NextEvents(Blank(v), Binder(0), i))
    ensures var c := StaleSwitch(p)[done].c;
            var i := SwitchProgram(bpc, c);
            Going(run, n, p, done + 1, events + |NextEvents(Blank(v), Binder(0), i)|, next, wpc, NextVars(Blank(v), i, c))
  {
    hide *;
    var i := SwitchProgram(bpc, StaleSwitch(p)[done].c);
    ProgramOfSwitch(bpc, StaleSwitch(p)[done].c);
    WhereItIs(run, n, p, done, events, bpc, wpc, v);
    BinderMoves(run, n + done, Switch(bpc), Work(wpc), v);
    GoesOn(run, n, p, done, events, bpc, wpc, v, next, wpc, NextVars(Blank(v), i, StaleSwitch(p)[done].c),
           NextEvents(Blank(v), Binder(0), i));
  }

  lemma WhereItIs(run: seq<Label>, n: nat, p: Port, done: nat, events: nat, bpc: SwitchPc, wpc: WorkPc, v: Vars)
    requires Going(run, n, p, done, events, bpc, wpc, v) && done < 16
    ensures n + done < |run| && run[n + done] == StaleSwitch(p)[done] && On(run[..n + done], Switch(bpc), Work(wpc), v)
  {
    LabelAt(run, n, p, done);
    hide On, LogOf, StaleSwitch, StaleEvents;
  }

  lemma GoesOn(run: seq<Label>, n: nat, p: Port, done: nat, events: nat, bpc: SwitchPc, wpc: WorkPc, v: Vars,
               bpc': SwitchPc, wpc': WorkPc, v': Vars, es: seq<Event>)
    requires Going(run, n, p, done, events, bpc, wpc, v) && done < 16 && NextOnes(p, events, es)
    requires On(run[..n + done + 1], Switch(bpc'), Work(wpc'), v')
    requires LogOf(run[..n + done + 1]) == LogOf(run[..n + done]) + es
    ensures Going(run, n, p, done + 1, events + |es|, bpc', wpc', v')
  {
    hide On, LogOf, StaleSwitch, StaleEvents;
    MoreEvents(LogOf(run[..n]), p, events, es);
    assert run[..n + done + 1] == run[..n + (done + 1)];
  }

  lemma WorkerGoes(run: seq<Label>, n: nat, p: Port, done: nat, events: nat, bpc: SwitchPc, wpc: WorkPc, v: Vars,
                   next: WorkPc)
    requires Going(run, n, p, done, events, bpc, wpc, v) && done < 16
    requires StaleSwitch(p)[done].Run? && StaleSwitch(p)[done].t == Worker(0)
    requires var c := StaleSwitch(p)[done].c;
             var i := WorkProgram(wpc, c);
             && Plain(i, Switch(bpc)) && NextPc(Blank(v), i, c) == Work(next)
             && NextOnes(p, events, NextEvents(Blank(v), Worker(0), i))
    ensures var c := StaleSwitch(p)[done].c;
            var i := WorkProgram(wpc, c);
            Going(run, n, p, done + 1, events + |NextEvents(Blank(v), Worker(0), i)|, bpc, next, NextVars(Blank(v), i, c))
  {
    hide *;
    var i := WorkProgram(wpc, StaleSwitch(p)[done].c);
    ProgramOfWork(wpc, StaleSwitch(p)[done].c);
    WhereItIs(run, n, p, done, events, bpc, wpc, v);
    WorkerMoves(run, n + done, Switch(bpc), Work(wpc), v);
    GoesOn(run, n, p, done, events, bpc, wpc, v, bpc, next, NextVars(Blank(v), i, StaleSwitch(p)[done].c),
           NextEvents(Blank(v), Worker(0), i));
  }

  lemma SignalGoes(run: seq<Label>, n: nat, p: Port, todo: seq<Action>, v: Vars)
    requires Going(run, n, p, 10, 10, Waiting(p), SignalPartner(todo), v)
    ensures Going(run, n, p, 11, 10, Waking(p, false), UnlockPartnerSet(todo), v)
  {
    LabelAt(run, n, p, 10);
    assert StaleSwitch(p)[10].t == Worker(0) && StaleSwitch(p)[10].c.waiter == Binder(0);
    hide On, LogOf, StaleSwitch, StaleEvents;
    WorkerSignals(run, n + 10, p, todo, v);
    assert run[..n + 10 + 1] == run[..n + 11];
  }

  /** Up to the wait. */
  lemma SwitchWaits(run: seq<Label>, n: nat, p: Port, w: WorkPc, v: Vars)
    requires Going(run, n, p, 1, 1, LockRole(p, true), w, v) && w.LockPartnerToSet?
    ensures Going(run, n, p, 8, 8, Waiting(p), w, v.(partnerUp := false))
  {
    hide Going;
    BinderGoes(run, n, p, 1, 1, LockRole(p, true), w, v, OpenPortType(p));
    BinderGoes(run, n, p, 2, 2, OpenPortType(p), w, v, LockPartner(p));
    ClearsAndWaits(run, n, p, w, v);
  }

  lemma ClearsAndWaits(run: seq<Label>, n: nat, p: Port, w: WorkPc, v: Vars)
    requires Going(run, n, p, 3, 3, LockPartner(p), w, v) && w.LockPartnerToSet?
    ensures Going(run, n, p, 8, 8, Waiting(p), w, v.(partnerUp := false))
  {
    hide Going;
    BinderGoes(run, n, p, 3, 3, LockPartner(p), w, v, ClearPartnerUp(p));
    BinderGoes(run, n, p, 4, 4, ClearPartnerUp(p), w, v, WriteRole(p));
    WritesAndWaits(run, n, p, w, v.(partnerUp := false));
  }

  lemma WritesAndWaits(run: seq<Label>, n: nat, p: Port, w: WorkPc, v: Vars)
    requires Going(run, n, p, 5, 5, WriteRole(p), w, v)
    ensures Going(run, n, p, 8, 8, Waiting(p), w, v)
  {
    hide Going;
    BinderGoes(run, n, p, 5, 5, WriteRole(p), w, v, SeeWrite(p));
    SeesAndWaits(run, n, p, w, v);
  }

  lemma SeesAndWaits(run: seq<Label>, n: nat, p: Port, w: WorkPc, v: Vars)
    requires Going(run, n, p, 6, 6, SeeWrite(p), w, v)
    ensures Going(run, n, p, 8, 8, Waiting(p), w, v)
  {
    hide Going;
    BinderGoes(run, n, p, 6, 6, SeeWrite(p), w, v, StartWait(p));
    BinderGoes(run, n, p, 7, 7, StartWait(p), w, v, Waiting(p));
  }

  /** The worker serves the wait. */
  lemma WorkerServes(run: seq<Label>, n: nat, p: Port, todo: seq<Action>, v: Vars)
    requires Going(run, n, p, 8, 8, Waiting(p), LockPartnerToSet(todo), v)
    ensures Going(run, n, p, 12, 11, Waking(p, false), Scan(todo), v.(partnerUp := true))
  {
    hide Going;
    var v' := v.(partnerUp := true);
    WorkerGoes(run, n, p, 8, 8, Waiting(p), LockPartnerToSet(todo), v, SetPartnerUp(todo));
    WorkerGoes(run, n, p, 9, 9, Waiting(p), SetPartnerUp(todo), v, SignalPartner(todo));
    SignalGoes(run, n, p, todo, v');
    WorkerGoes(run, n, p, 11, 10, Waking(p, false), UnlockPartnerSet(todo), v', Scan(todo));
  }

  lemma SwitchReturns(run: seq<Label>, n: nat, p: Port, w: WorkPc, v: Vars)
    requires Going(run, n, p, 12, 11, Waking(p, false), w, v) && w.Scan? && v.partnerUp
    ensures Going(run, n, p, 16, 15, LockToNotify(Outcome(p, true, true)), w, v)
  {
    hide Going;
    BinderGoes(run, n, p, 12, 11, Waking(p, false), w, v, CheckPartnerUp(p, false));
    BinderGoes(run, n, p, 13, 12, CheckPartnerUp(p, false), w, v, UnlockPartner(p, true));
    SwitchReports(run, n, p, w, v);
  }

  lemma SwitchReports(run: seq<Label>, n: nat, p: Port, w: WorkPc, v: Vars)
    requires Going(run, n, p, 14, 13, UnlockPartner(p, true), w, v) && w.Scan?
    ensures Going(run, n, p, 16, 15, LockToNotify(Outcome(p, true, true)), w, v)
  {
    hide Going;
    BinderGoes(run, n, p, 14, 13, UnlockPartner(p, true), w, v, ReturnMode(p, true));
    BinderGoes(run, n, p, 15, 14, ReturnMode(p, true), w, v, LockToNotify(Outcome(p, true, true)));
  }

  lemma SwitchBegins(run: seq<Label>, n: nat, p: Port, w: WorkPc, v: Vars)
    requires n + 16 == |run| && run[n..] == StaleSwitch(p) && On(run[..n], Idle, Work(w), v)
    ensures Going(run, n, p, 1, 1, LockRole(p, true), w, v)
  {
    LabelAt(run, n, p, 0);
    var c := run[n].c;
    assert Program(Idle, c) == Note(Begun(Switch(LockRole(p, true))), Switch(LockRole(p, true)));
    assert StaleSwitch(p)[0] == Begin(Binder(0), Switch(LockRole(p, true)));
    assert StaleEvents(p)[..1] == [Event(Binder(0), Noted(Begun(Switch(LockRole(p, true)))))];
    hide On, LogOf, StaleSwitch, StaleEvents, Program;
    BinderMoves(run, n, Idle, Work(w), v);
  }

  /** switchMode returned true at r, served at k, by a record that was received before mPartnerUp was cleared at c. */
  ghost predicate StaleSuccess(log: seq<Event>, c: nat, w: nat, k: nat, r: nat) {
    && c < k < r < |log| && log[r] == Event(Binder(0), ModeReturned(true))
    && ServedBy(log[..r], Binder(0), c, w, k) && !ReceivedSince(log, c, k)
  }

  /** Whenever the worker is about to take mPartnerLock for a record it has received, a mode switch that begins now can
      return true for this record. */
  lemma StaleRecordServes(before: seq<Label>, p: Port, todo: seq<Action>, v: Vars)
    requires On(before, Idle, Work(LockPartnerToSet(todo)), v)
    ensures var run, at := before + StaleSwitch(p), |LogOf(before)|;
            After(run).Some? && StaleSuccess(LogOf(run), at + 4, at + 7, at + 9, at + 14)
  {
    var run, n := before + StaleSwitch(p), |before|;
    assert run[..n] == before && run[n..] == StaleSwitch(p);
    hide Going, On, StaleSwitch, LogOf, StaleSuccess, StaleEvents;
    SwitchBegins(run, n, p, LockPartnerToSet(todo), v);
    SwitchWaits(run, n, p, LockPartnerToSet(todo), v);
    WorkerServes(run, n, p, todo, v.(partnerUp := false));
    SwitchReturns(run, n, p, Scan(todo), v.(partnerUp := true));
    EndsWith(run, n, p, LockToNotify(Outcome(p, true, true)), Scan(todo), v.(partnerUp := true));
    BacklogBefore(before, todo, v);
    StaleSo(run, LogOf(before), p);
  }

  lemma EndsWith(run: seq<Label>, n: nat, p: Port, b: SwitchPc, w: WorkPc, v: Vars)
    requires Going(run, n, p, 16, 15, b, w, v)
    ensures After(run).Some? && LogOf(run) == LogOf(run[..n]) + StaleEvents(p)
  {
    assert run[..n + 16] == run && StaleEvents(p)[..15] == StaleEvents(p);
    hide After, StaleSwitch, StaleEvents, LogOf;
  }

  lemma ServedSo(log: seq<Event>, p: Port)
    ensures var all, at := log + StaleEvents(p), |log|;
            && |all| == at + 15 && all[at + 14] == Event(Binder(0), ModeReturned(true))
            && ServedBy(all[..at + 14], Binder(0), at + 4, at + 7, at + 9)
  {
    var all, at := log + StaleEvents(p), |log|;
    assert forall j :: at <= j < at + 15 ==> all[j] == StaleEvents(p)[j - at];
  }

  lemma BacklogBefore(before: seq<Label>, todo: seq<Action>, v: Vars)
    requires On(before, Idle, Work(LockPartnerToSet(todo)), v)
    ensures Backlog(LogOf(before), Worker(0)) > 0
  {
    RunKeepsReceipts(before);
    hide After, Backlog, ReceiptsOk;
  }

  lemma StaleSo(run: seq<Label>, log: seq<Event>, p: Port)
    requires After(run).Some? && LogOf(run) == log + StaleEvents(p) && Backlog(log, Worker(0)) > 0
    ensures StaleSuccess(LogOf(run), |log| + 4, |log| + 7, |log| + 9, |log| + 14)
  {
    var s, all, at := After(run).value, log + StaleEvents(p), |log|;
    assert s.log == all;
    assert Reachable(s);
    hide After, Reachable, ServedBy, ReceivedSince, Backlog, LogOf, StaleEvents, NoBacklog;
    ServedSo(log, p);
    BacklogAtClear(log, p);
    FreshRecordIff(s, at + 14, at + 4, at + 7, at + 9);
  }

  lemma BacklogAtClear(log: seq<Event>, p: Port)
    requires Backlog(log, Worker(0)) > 0
    ensures !NoBacklog((log + StaleEvents(p))[..|log| + 4])
    ensures |log| + 9 < |log + StaleEvents(p)|
  {
    var all, at := log + StaleEvents(p), |log|;
    assert all[..at] == log;
    assert forall j :: 0 <= j < 4 ==> StaleEvents(p)[j].t == Binder(0);
    assert forall j :: at <= j < at + 4 ==> all[j] == StaleEvents(p)[j - at];
    hide Backlog, StaleEvents;
    OthersKeepBacklog(all, Worker(0), at, at + 4);
  }

  lemma {:induction false} OthersKeepBacklog(log: seq<Event>, u: Thread, start: nat, end: nat)
    requires start <= end <= |log| && forall j :: start <= j < end ==> log[j].t != u
    ensures Backlog(log[..end], u) == Backlog(log[..start], u)
    decreases end
  {
    if start < end {
      OthersKeepBacklog(log, u, start, end - 1);
      assert log[..end][..end - 1] == log[..end - 1] && log[..end][end - 1] == log[end - 1];
    }
  }

  const PARTNER_RECORD := "add-partner"

  lemma PartnerRecordHandled()
    ensures Handled(Message([PARTNER_RECORD])) == [PartnerAdded]
  {
    HandlesTheRecords([PARTNER_RECORD], "");
    assert Message([PARTNER_RECORD]) + "" == Message([PARTNER_RECORD]);
    hide Message, Handled;
    assert IsPartnerAdded(PARTNER_RECORD);
  }

  /** Such a run exists: register a callback, receive a partner record, switch the mode. */
  lemma StaleRunReachable(p: Port)
    ensures var run := FirstMessage(Message([PARTNER_RECORD])) + StaleSwitch(p);
            After(run).Some? && exists c: nat, w: nat, k: nat, r: nat :: StaleSuccess(LogOf(run), c, w, k, r)
  {
    hide FirstMessage, StaleSwitch, After, On, StaleSuccess, LogOf, Message, Handled;
    PartnerRecordHandled();
    FirstMessageReached(Message([PARTNER_RECORD]), PartnerAdded);
    StaleRecordServes(FirstMessage(Message([PARTNER_RECORD])), p, [], REGISTERED);
  }
}
