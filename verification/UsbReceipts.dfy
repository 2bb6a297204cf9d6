/** When the partner record that ends a wait was received: the uevent may be older than the role switch
    (usb/usb/Usb.cpp:325-352, 714-735, 802-814). */
module UsbReceipts {
  import opened Wrappers
  import opened Uevent
  import opened UsbProtocol
  import opened UsbInvariants
  import opened UsbLifecycle
  import opened UsbHandshake
  import opened UsbReachable
  import opened UsbTraces

  /** The partner records of a message still to be handled: those before a status query. */
  function Count(todo: seq<Action>): nat {
    if todo == [] || todo[0] == StatusQuery then 0 else 1 + Count(todo[1..])
  }

  function BacklogAfter(b: nat, u: Thread, e: Event): nat {
    if e.t != u then b
    else match e.what
      case Received(todo) => Count(todo)
      case PartnerUp(true) => if b > 0 then b - 1 else 0
      case _ => b
  }

  /** The partner records a thread has received and not yet handled, by the history alone. */
  function Backlog(log: seq<Event>, u: Thread): nat {
    if log == [] then 0 else BacklogAfter(Backlog(log[..|log| - 1], u), u, log[|log| - 1])
  }

  /** The same by its program point. */
  function Unhandled(pc: Pc): nat {
    if !pc.Work? then 0
    else match pc.w
      case Scan(todo) => Count(todo)
      case LockPartnerToSet(todo) => 1 + Count(todo)
      case SetPartnerUp(todo) => 1 + Count(todo)
      case SignalPartner(todo) => Count(todo)
      case UnlockPartnerSet(todo) => Count(todo)
      case _ => 0
  }

  ghost predicate NoBacklog(log: seq<Event>) {
    forall u: Thread :: Backlog(log, u) == 0
  }

  /** A record is handled by the one thread that has any left, and a message is received only by one that has none. */
  ghost predicate ReceiptOk(before: seq<Event>, e: Event) {
    match e.what
    case PartnerUp(true) => Backlog(before, e.t) > 0 && forall v: Thread :: v != e.t ==> Backlog(before, v) == 0
    case Received(_) => Backlog(before, e.t) == 0
    case _ => true
  }

  ghost predicate ReceiptsOk(log: seq<Event>) {
    forall r :: 0 <= r < |log| ==> ReceiptOk(log[..r], log[r])
  }

  ghost predicate Receipts(s: State) {
    ReceiptsOk(s.log) && forall u: Thread :: Backlog(s.log, u) == Unhandled(s.At(u))
  }

  // ---------- Every step keeps it ----------

  predicate HandlesOne(pc: Pc, i: Instr) {
    && (i.AssignPartnerUp? && i.up ==> pc.Work? && Unhandled(pc) == Unhandled(i.next) + 1)
    && (i.Receive? ==> Unhandled(pc) == 0 && Unhandled(i.next) == Count(i.todo))
    && (!i.Stop? && !i.Receive? && !(i.AssignPartnerUp? && i.up) ==> Unhandled(i.next) == Unhandled(pc))
    && (Branches(i) ==> Unhandled(i.otherwise) == Unhandled(pc))
  }

  lemma SwitchHandles(p: SwitchPc, c: Choice)
    ensures HandlesOne(Switch(p), SwitchProgram(p, c))
  {
  }

  lemma CallHandles(p: CallPc, c: Choice)
    ensures HandlesOne(Call(p), CallProgram(p, c))
  {
  }

  lemma WorkHandles(p: WorkPc, c: Choice)
    ensures HandlesOne(Work(p), WorkProgram(p, c))
  {
    hide Handled;
  }

  lemma ProgramHandles(pc: Pc, c: Choice)
    ensures HandlesOne(pc, Program(pc, c))
  {
    match pc {
      case Switch(p) => SwitchHandles(p, c);
      case Call(p) => CallHandles(p, c);
      case Work(p) => WorkHandles(p, c);
      case Idle =>
      case Ended =>
    }
    hide SwitchProgram, CallProgram, WorkProgram;
  }

  function BacklogThen(b: nat, u: Thread, e: Option<Event>): nat {
    match e case None => b case Some(ev) => BacklogAfter(b, u, ev)
  }

  lemma ReceiptsGrow(s: State, t: Thread, i: Instr)
    ensures var e, log := EventOf(s, t, i), s.log + NextEvents(s, t, i);
            && (forall x: Thread :: Backlog(log, x) == BacklogThen(Backlog(s.log, x), x, e))
            && (ReceiptsOk(s.log) && (e.Some? ==> ReceiptOk(s.log, e.value)) ==> ReceiptsOk(log))
  {
    var es := NextEvents(s, t, i);
    if es == [] {
      assert s.log + es == s.log;
    } else {
      assert es == [es[0]];
      BacklogGrows(s.log, es[0]);
      if ReceiptsOk(s.log) && ReceiptOk(s.log, es[0]) { ReceiptsGrowByOne(s.log, es[0]); }
    }
    hide NextEvents, BacklogAfter, Backlog, ReceiptsOk, ReceiptOk;
  }

  lemma BacklogGrows(log: seq<Event>, e: Event)
    ensures forall x: Thread :: Backlog(log + [e], x) == BacklogAfter(Backlog(log, x), x, e)
  {
    hide BacklogAfter;
    assert (log + [e])[..|log|] == log;
  }

  lemma ReceiptsGrowByOne(log: seq<Event>, e: Event)
    requires ReceiptsOk(log) && ReceiptOk(log, e)
    ensures ReceiptsOk(log + [e])
  {
    hide ReceiptOk;
    var more := log + [e];
    assert more[..|log|] == log;
    forall r | 0 <= r < |more| ensures ReceiptOk(more[..r], more[r]) {
      if r < |log| {
        assert more[..r] == log[..r] && ReceiptOk(log[..r], log[r]);
      }
    }
  }

  /** Only one thread can have a backlog: the worker that is alive. */
  lemma OneBacklog(s: State, t: Thread, v: Thread)
    requires WellTyped(s) && Lifecycle(s) && Unhandled(s.At(t)) > 0 && Unhandled(s.At(v)) > 0
    ensures t == v
  {
    assert InWorker(s.At(t)) && InWorker(s.At(v));
    assert s.Live(t.id) && s.Live(v.id);
    hide PhaseOf;
  }

  lemma ReceiptIsOk(s: State, t: Thread, i: Instr)
    requires WellTyped(s) && Lifecycle(s) && Receipts(s) && HandlesOne(s.At(t), i)
    ensures EventOf(s, t, i).Some? ==> ReceiptOk(s.log, EventOf(s, t, i).value)
  {
    hide Lifecycle, WellTyped, Unhandled, Backlog, Count;
    if i.AssignPartnerUp? && i.up {
      forall v: Thread | v != t ensures Backlog(s.log, v) == 0 {
        if Unhandled(s.At(v)) > 0 { OneBacklog(s, t, v); }
      }
    }
  }

  lemma BacklogFollows(s: State, t: Thread, c: Choice, x: Thread)
    requires WellTyped(s) && Receipts(s) && Step(s, t, c).Some?
    ensures var i := Program(s.At(t), c);
            Unhandled(Step(s, t, c).value.At(x)) == BacklogThen(Backlog(s.log, x), x, EventOf(s, t, i))
  {
    var i := Program(s.At(t), c);
    var s', u := Step(s, t, c).value, Other(s, i, c);
    Moves(s, t, i, c);
    ProgramHandles(s.At(t), c);
    assert Backlog(s.log, x) == Unhandled(s.At(x));
    if x == t {
    } else if u.Some? && x == u.value.0 {
      assert !s.Live(s.vars.created);
      assert Unhandled(s.At(x)) == 0 && Unhandled(u.value.1) == 0;
    } else {
      assert s'.At(x) == s.At(x);
    }
    hide Program, NextPcs, NextOwners, NextVars, Backlog, Count, Unhandled, ReceiptsOk;
  }

  lemma StepKeepsReceipts(s: State, t: Thread, c: Choice)
    requires Invariant(s) && Receipts(s) && Step(s, t, c).Some?
    ensures Receipts(Step(s, t, c).value)
  {
    var i := Program(s.At(t), c);
    var s' := Step(s, t, c).value;
    assert s'.log == s.log + NextEvents(s, t, i);
    ProgramHandles(s.At(t), c);
    ReceiptIsOk(s, t, i);
    ReceiptsGrow(s, t, i);
    hide Program, Step, NextEvents, Backlog, Unhandled, ReceiptsOk, WellTyped, LocksMatch, Lifecycle, Handshake, BacklogThen;
    forall x: Thread ensures Backlog(s'.log, x) == Unhandled(s'.At(x)) {
      BacklogFollows(s, t, c, x);
    }
  }

  lemma DeliverKeepsReceipts(s: State, w: nat, interrupts: bool)
    requires Receipts(s) && Deliver(s, w, interrupts).Some?
    ensures Receipts(Deliver(s, w, interrupts).value)
  {
    var s' := Deliver(s, w, interrupts).value;
    assert s'.log == s.log;
    forall x: Thread ensures s'.At(x) == s.At(x) || (s.At(x) == Work(Poll) && s'.At(x) == Work(CheckDestroy)) {
    }
    hide Deliver, Backlog, ReceiptsOk;
    forall x: Thread ensures Backlog(s'.log, x) == Unhandled(s'.At(x)) {
      assert Unhandled(s'.At(x)) == Unhandled(s.At(x));
    }
  }

  lemma {:induction false} RunKeepsReceipts(run: seq<Label>)
    requires After(run).Some?
    ensures Receipts(After(run).value)
  {
    if run != [] {
      var before, l := run[..|run| - 1], run[|run| - 1];
      RunKeepsReceipts(before);
      RunKeepsInvariant(before);
      var s := After(before).value;
      hide After, Step, Receipts, Invariant;
      match l {
        case Run(t, c) => StepKeepsReceipts(s, t, c);
        case Signal(w, interrupts) => DeliverKeepsReceipts(s, w, interrupts);
      }
    }
  }

  // ---------- Received before or after the clearing ----------

  /** The last message thread u received before k is at q. */
  predicate LastReceipt(log: seq<Event>, u: Thread, q: nat, k: nat) {
    && q < k <= |log| && log[q].t == u && log[q].what.Received?
    && forall j :: q < j < k ==> !(log[j].t == u && log[j].what.Received?)
  }

  /** The record handled at k came with a message that was received after c. */
  ghost predicate ReceivedSince(log: seq<Event>, c: nat, k: nat)
    requires k < |log|
  {
    exists q: nat :: c < q && LastReceipt(log, log[k].t, q, k)
  }

  lemma OneEvent(log: seq<Event>, u: Thread, k: nat)
    requires k < |log|
    ensures Backlog(log[..k + 1], u) == BacklogAfter(Backlog(log[..k], u), u, log[k])
  {
    assert log[..k + 1][..k] == log[..k];
  }

  lemma {:induction false} BacklogWaits(log: seq<Event>, u: Thread, c: nat, k: nat)
    requires ReceiptsOk(log) && c <= k <= |log| && Backlog(log[..c], u) > 0
    requires forall j :: c <= j < k ==> log[j].what != PartnerUp(true)
    ensures Backlog(log[..k], u) > 0
    ensures forall j :: c <= j < k ==> !(log[j].t == u && log[j].what.Received?)
    decreases k
  {
    hide Backlog, Count;
    if c < k {
      BacklogWaits(log, u, c, k - 1);
      OneEvent(log, u, k - 1);
      assert ReceiptOk(log[..k - 1], log[k - 1]);
    }
  }

  lemma {:induction false} BacklogReceived(log: seq<Event>, u: Thread, c: nat, k: nat)
    requires c <= k <= |log| && Backlog(log[..c], u) == 0 && Backlog(log[..k], u) > 0
    ensures exists q: nat :: c <= q && LastReceipt(log, u, q, k)
    decreases k
  {
    hide Backlog, Count;
    OneEvent(log, u, k - 1);
    if log[k - 1].t == u && log[k - 1].what.Received? {
      assert LastReceipt(log, u, k - 1, k);
    } else {
      BacklogReceived(log, u, c, k - 1);
      var q: nat :| c <= q && LastReceipt(log, u, q, k - 1);
      assert LastReceipt(log, u, q, k);
    }
  }

  lemma ReceivedSinceIff(log: seq<Event>, c: nat, k: nat)
    requires ReceiptsOk(log) && c < k < |log|
    requires log[c].what == PartnerUp(false) && log[k].what == PartnerUp(true) && NoneHandled(log, c, k)
    ensures ReceivedSince(log, c, k) <==> NoBacklog(log[..c])
  {
    hide Backlog, ReceiptsOk;
    assert ReceiptOk(log[..k], log[k]) by { OkAt(log, k); }
    var u := log[k].t;
    if NoBacklog(log[..c]) {
      BacklogReceived(log, u, c, k);
      var q: nat :| c <= q && LastReceipt(log, u, q, k);
      assert c != q;
    } else {
      var v: Thread :| Backlog(log[..c], v) != 0;
      BacklogWaits(log, v, c, k);
      assert v == u;
    }
  }

  lemma OkAt(log: seq<Event>, k: nat)
    requires ReceiptsOk(log) && k < |log|
    ensures ReceiptOk(log[..k], log[k])
  {
  }

  /** A successful switchMode was served by a record received after it cleared mPartnerUp if and only if no worker held
      an unhandled record then. */
  lemma FreshRecordIff(s: State, r: nat, c: nat, w: nat, k: nat)
    requires Reachable(s) && r < |s.log| && s.log[r].what == ModeReturned(true)
    requires ServedBy(s.log[..r], s.log[r].t, c, w, k)
    ensures ReceivedSince(s.log, c, k) <==> NoBacklog(s.log[..c])
  {
    hide Reachable, ReceiptsOk, ServedBy, NoneHandled, Backlog, ReceivedSince, NoBacklog;
    ReachableReceipts(s);
    ServedWithin(s.log, r, s.log[r].t, c, w, k);
    ReceivedSinceIff(s.log, c, k);
  }

  lemma ReachableReceipts(s: State)
    requires Reachable(s)
    ensures ReceiptsOk(s.log)
  {
    var run :| After(run) == Some(s);
    RunKeepsReceipts(run);
    hide After, ReceiptsOk;
  }

  lemma ServedWithin(log: seq<Event>, r: nat, t: Thread, c: nat, w: nat, k: nat)
    requires r <= |log| && ServedBy(log[..r], t, c, w, k)
    ensures c < k < r && log[c].what == PartnerUp(false) && log[k].what == PartnerUp(true) && NoneHandled(log, c, k)
  {
    forall j | c < j < k ensures log[j].what != PartnerUp(true) {
      assert log[j] == log[..r][j];
    }
  }
}
