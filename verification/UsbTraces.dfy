/** What the history of every run of the USB service looks like: the role-switch handshake, and who writes port_type
    when (usb/usb/Usb.cpp:295-365, 404-442, 730-756). */
module UsbTraces {
  import opened Wrappers
  import opened UsbProtocol
  import opened UsbInvariants
  import opened UsbHandshake
  import opened UsbLifecycle
  import opened UsbReachable

  // ---------- The handshake ----------

  /** The last time thread t cleared mPartnerUp is at c, and it has not returned from switchMode since. */
  predicate LastClear(log: seq<Event>, t: Thread, c: nat) {
    && c < |log| && log[c] == Event(t, PartnerUp(false))
    && forall j :: c < j < |log| ==> log[j] != Event(t, PartnerUp(false)) && !(log[j].t == t && log[j].what.ModeReturned?)
  }

  /** No partner record was handled strictly between two events. */
  predicate NoneHandled(log: seq<Event>, lo: nat, hi: nat)
    requires hi <= |log|
  {
    forall j :: lo < j < hi ==> log[j].what != PartnerUp(true)
  }

  /** Since it cleared mPartnerUp, at c, thread t has started to wait, at w, without a partner record in between. */
  predicate WaitedFrom(log: seq<Event>, t: Thread, c: nat, w: nat) {
    LastClear(log, t, c) && c < w < |log| && log[w] == Event(t, WaitStarted) && NoneHandled(log, c, w)
  }

  /** The first partner record that was handled after the clearing, at k, was so after the wait had started. */
  predicate ServedBy(log: seq<Event>, t: Thread, c: nat, w: nat, k: nat) {
    WaitedFrom(log, t, c, w) && w < k < |log| && log[k].what == PartnerUp(true) && NoneHandled(log, c, k)
  }

  /** What the progress of a thread says about the history. */
  ghost predicate Means(log: seq<Event>, t: Thread, g: Progress) {
    match g
    case NoCall => true
    case Spoiled => true
    case Cleared => exists c :: LastClear(log, t, c) && NoneHandled(log, c, |log|)
    case Waited => exists c, w :: WaitedFrom(log, t, c, w) && NoneHandled(log, c, |log|)
    case Served => exists c, w, k :: ServedBy(log, t, c, w, k)
  }

  lemma {:induction false} MonitorMeans(log: seq<Event>, t: Thread)
    ensures Means(log, t, Monitor(log, t))
  {
    if log != [] {
      var before, e := log[..|log| - 1], log[|log| - 1];
      MonitorMeans(before, t);
      OneMoreMeans(before, t, Monitor(before, t), e);
      assert before + [e] == log;
    }
    hide Means, Observe;
  }

  lemma OneMoreMeans(log: seq<Event>, t: Thread, g: Progress, e: Event)
    requires Means(log, t, g)
    ensures Means(log + [e], t, Observe(g, t, e))
  {
    var more, n := log + [e], |log|;
    if e == Event(t, PartnerUp(false)) {
      assert LastClear(more, t, n) && NoneHandled(more, n, |more|);
    } else if !(e.t == t && e.what.ModeReturned?) {
      match g {
        case Cleared =>
          var c :| LastClear(log, t, c) && NoneHandled(log, c, n);
          assert LastClear(more, t, c);
          if e == Event(t, WaitStarted) {
            assert WaitedFrom(more, t, c, n);
          }
        case Waited =>
          var c, w :| WaitedFrom(log, t, c, w) && NoneHandled(log, c, n);
          assert LastClear(more, t, c) && WaitedFrom(more, t, c, w);
          if e.what == PartnerUp(true) {
            assert ServedBy(more, t, c, w, n);
          }
        case Served =>
          var c, w, k :| ServedBy(log, t, c, w, k);
          assert LastClear(more, t, c) && WaitedFrom(more, t, c, w) && ServedBy(more, t, c, w, k);
        case NoCall =>
        case Spoiled =>
      }
    }
  }

  /** Every event of a reachable history finds before it what it must. */
  lemma EventOkAt(s: State, r: nat)
    requires Reachable(s) && r < |s.log|
    ensures EventOk(s.log[..r], s.log[r]) && LogOk(s.log[..r])
  {
    ReachableInvariant(s);
    hide Reachable, Lifecycle, WellTyped, LocksMatch, EventOk;
    LogOkBefore(s.log, r);
  }

  lemma LogOkBefore(log: seq<Event>, n: nat)
    requires LogOk(log) && n <= |log|
    ensures LogOk(log[..n])
  {
    hide EventOk;
    forall r | 0 <= r < n ensures log[..n][..r] == log[..r] {
    }
  }

  /** In every interleaving switchMode returns true only if, within this call, the thread cleared mPartnerUp, then
      started to wait, and then a worker handled a partner record; none was handled between the clearing and the wait. */
  lemma SuccessMeansPartner(s: State, r: nat)
    requires Reachable(s) && r < |s.log| && s.log[r].what == ModeReturned(true)
    ensures exists c: nat, w: nat, k: nat :: ServedBy(s.log[..r], s.log[r].t, c, w, k) && s.log[k].t.Worker?
  {
    hide Reachable, LogOk, Monitor;
    var before, t := s.log[..r], s.log[r].t;
    EventOkAt(s, r);
    MonitorMeans(before, t);
    var c: nat, w: nat, k: nat :| ServedBy(before, t, c, w, k);
    assert k < r && s.log[k] == before[k];
    EventOkAt(s, k);
    hide ServedBy;
    assert ServedBy(before, t, c, w, k) && s.log[k].t.Worker?;
  }

  /** Never more than one thread is between the start of a wait and its end, so the signal of a partner record finds at
      most one waiter. */
  lemma OneWaiter(s: State, t: Thread, u: Thread)
    requires Reachable(s) && IsWaiting(s.At(t)) && IsWaiting(s.At(u))
    ensures t == u
  {
    ReachableInvariant(s);
    if t != u { Exclusive(s, t, u, RoleSwitchLock); }
    hide Reachable, Lifecycle, WellTyped, LocksMatch, Handshake;
  }

  // ---------- Writes to port_type ----------

  /** Thread b took mRoleSwitchLock at i and has not dropped it since. */
  predicate HeldSince(log: seq<Event>, b: Thread, i: nat) {
    && i < |log| && log[i] == Event(b, Locked(RoleSwitchLock))
    && forall j :: i < j < |log| && log[j].what.Unlocked? && log[j].what.l == RoleSwitchLock ==> log[j].t != b
  }

  lemma {:induction false} HeldByOne(log: seq<Event>, b: Thread, i: nat)
    requires LogOk(log) && HeldSince(log, b, i)
    ensures Holder(log) == Some(b)
    decreases |log|
  {
    var n := |log| - 1;
    var before := log[..n];
    assert EventOk(before, log[n]);
    if i < n {
      assert HeldSince(before, b, i);
      LogOkBefore(log, n);
      HeldByOne(before, b, i);
    }
    hide LogOk, Monitor, LastWrite;
  }

  lemma {:induction false} HolderTookIt(log: seq<Event>)
    requires LogOk(log) && Holder(log).Some?
    ensures exists i :: HeldSince(log, Holder(log).value, i)
  {
    hide LogOk, EventOk;
    var n := |log| - 1;
    var before, b := log[..n], Holder(log).value;
    if log[n].what == Locked(RoleSwitchLock) {
      assert HeldSince(log, b, n);
    } else {
      LogOkBefore(log, n);
      HolderTookIt(before);
      var i :| HeldSince(before, b, i);
      assert HeldSince(log, b, i);
    }
  }

  /** Every write to a port_type node falls between its thread's taking of mRoleSwitchLock and its dropping it, and
      between those two no other thread writes any port_type node: the worker's "dual" is never written during a role
      switch. */
  lemma PortTypeExclusive(s: State, k: nat)
    requires Reachable(s) && k < |s.log| && s.log[k].what.PortTypeWrite?
    ensures exists i :: HeldSince(s.log[..k], s.log[k].t, i)
    ensures forall b, i :: HeldSince(s.log[..k], b, i) ==> s.log[k].t == b
  {
    hide Reachable, LogOk, Holder, HeldSince;
    var before := s.log[..k];
    EventOkAt(s, k);
    HolderTookIt(before);
    forall b, i | HeldSince(before, b, i) ensures s.log[k].t == b {
      HeldByOne(before, b, i);
    }
  }

  /** The last write to port_type so far is at k, and mRoleSwitchLock has not been taken since. */
  predicate IsLastWrite(log: seq<Event>, k: nat, w: Write) {
    && k < |log| && log[k] == Event(w.t, PortTypeWrite(w.port, w.text))
    && forall j :: k < j < |log| ==> !log[j].what.PortTypeWrite? && log[j].what != Locked(RoleSwitchLock)
  }

  lemma {:induction false} LastWriteIsLast(log: seq<Event>)
    requires LastWrite(log).Some?
    ensures exists k :: IsLastWrite(log, k, LastWrite(log).value)
  {
    var n := |log| - 1;
    if log[n].what.PortTypeWrite? {
      assert IsLastWrite(log, n, LastWrite(log).value);
    } else {
      LastWriteIsLast(log[..n]);
      var k :| IsLastWrite(log[..n], k, LastWrite(log).value);
      assert IsLastWrite(log, k, LastWrite(log).value);
    }
  }

  /** An event at k comes after thread t took mRoleSwitchLock, which it has not dropped since. */
  ghost predicate WithinLock(log: seq<Event>, t: Thread, k: nat) {
    exists i: nat :: i < k && HeldSince(log, t, i)
  }

  /** When a mode switch that failed drops mRoleSwitchLock, the last attempt to write any port_type node, under this
      lock, was its own "dual" to its port; when it succeeded, its own role. */
  lemma FailedSwitchRestoresDual(s: State, r: nat)
    requires Reachable(s) && r < |s.log| && s.log[r].what.Unlocked?
    requires s.log[r].what.l == RoleSwitchLock && s.log[r].what.done.Some? && s.log[r].what.done.value.mode
    ensures var t, o := s.log[r].t, s.log[r].what.done.value;
            exists k: nat :: IsLastWrite(s.log[..r], k, Write(t, o.port, if o.ok then Role else Dual)) && WithinLock(s.log[..r], t, k)
  {
    hide Reachable, LogOk, Holder, LastWrite;
    var before, t, o := s.log[..r], s.log[r].t, s.log[r].what.done.value;
    EventOkAt(s, r);
    LastWriteIsLast(before);
    HolderTookIt(before);
    var k: nat :| IsLastWrite(before, k, FinalWrite(t, o));
    var i: nat :| HeldSince(before, t, i);
    assert i < k;
    assert WithinLock(before, t, k);
    assert IsLastWrite(before, k, Write(t, o.port, if o.ok then Role else Dual));
  }
}
