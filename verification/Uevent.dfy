/** The scanner of kernel uevent messages (usb/usb/Usb.cpp:714-763). */
module Uevent {

  const UEVENT_MSG_LEN := 2048

  /** What a record makes the worker do. */
  datatype Action = PartnerAdded | StatusQuery

  const ADD := "add"
  const PARTNER := "-partner"

  /** A full match of `(add)(.*)(-partner)`; the dot stops at line ends. */
  predicate IsPartnerAdded(r: string) {
    && |r| >= |ADD| + |PARTNER| && ADD <= r && r[|r| - |PARTNER|..] == PARTNER
    && '\n' !in r[|ADD|..|r| - |PARTNER|] && '\r' !in r[|ADD|..|r| - |PARTNER|]
  }

  predicate IsStatusChange(r: string) {
    "DEVTYPE=typec_" <= r || "POWER_SUPPLY_MOISTURE_DETECTED" <= r
  }

  // ---------- The message as a list of records ----------

  /** The C string at the start of a buffer. */
  function CString(s: string): (r: string)
    ensures |r| <= |s| && r == s[..|r|] && '\0' !in r && (|r| < |s| ==> s[|r|] == '\0')
  {
    if s == [] || s[0] == '\0' then [] else [s[0]] + CString(s[1..])
  }

  /** A message cut at its NULs. */
  function Split(s: string): seq<string> {
    var r := CString(s);
    if |r| == |s| then [r] else [r] + Split(s[|r| + 1..])
  }

  /** The records before the first empty one. */
  function BeforeEmpty(rs: seq<string>): seq<string> {
    if rs == [] || rs[0] == [] then [] else [rs[0]] + BeforeEmpty(rs[1..])
  }

  /** What the records make the worker do, cut after the first status query. */
  function Actions(rs: seq<string>): seq<Action> {
    if rs == [] then []
    else if IsPartnerAdded(rs[0]) then [PartnerAdded] + Actions(rs[1..])
    else if IsStatusChange(rs[0]) then [StatusQuery]
    else Actions(rs[1..])
  }

  function Handled(message: string): seq<Action> {
    Actions(BeforeEmpty(Split(message)))
  }

  /** What is left to do from a position of the message on; one past the terminator nothing is. */
  ghost function Remaining(s: string, n: nat, cp: nat): seq<Action>
    requires n <= |s| && cp <= n + 1
  {
    if cp > n then [] else Handled(s[cp..n])
  }

  lemma {:induction false} CStringOfPrefix(s: string, n: nat, cp: nat)
    requires n < |s| && s[n] == '\0' && cp <= n
    ensures CString(s[cp..n]) == CString(s[cp..])
    decreases n - cp
  {
    if cp < n && s[cp] != '\0' {
      CStringOfPrefix(s, n, cp + 1);
      assert s[cp..n][1..] == s[cp + 1..n] && s[cp..][1..] == s[cp + 1..];
    }
  }

  lemma SplitStep(t: string)
    requires t != [] && t[0] != '\0'
    ensures var r := CString(t);
            && r != []
            && BeforeEmpty(Split(t)) == [r] + if |r| == |t| then [] else BeforeEmpty(Split(t[|r| + 1..]))
  {
    var r := CString(t);
    assert Split(t)[1..] == if |r| == |t| then [] else Split(t[|r| + 1..]);
  }

  /** Nothing is left to do at a NUL. */
  lemma RemainingEnd(s: string, n: nat, cp: nat)
    requires n <= |s| && cp <= n + 1 && (cp < n ==> s[cp] == '\0')
    ensures Remaining(s, n, cp) == []
  {
    if cp <= n {
      NothingFirst(s[cp..n]);
    }
  }

  /** What the record at the cursor leads to, and where the scan goes on. */
  lemma RemainingAfter(s: string, n: nat, cp: nat)
    requires n + 2 <= |s| && s[n] == '\0' && cp < n && s[cp] != '\0'
    ensures var r := CString(s[cp..]);
            && cp + |r| <= n
            && Remaining(s, n, cp) ==
               if IsPartnerAdded(r) then [PartnerAdded] + Remaining(s, n, cp + |r| + 1)
               else if IsStatusChange(r) then [StatusQuery]
               else Remaining(s, n, cp + |r| + 1)
  {
    hide CString, Split, BeforeEmpty, IsPartnerAdded, IsStatusChange;
    var t, r := s[cp..n], CString(s[cp..]);
    CStringOfPrefix(s, n, cp);
    SplitStep(t);
    var next := cp + |r| + 1;
    var rest := if |r| == |t| then [] else BeforeEmpty(Split(t[|r| + 1..]));
    if |r| < |t| { assert t[|r| + 1..] == s[next..n]; }
    assert Actions(rest) == Remaining(s, n, next);
    assert ([r] + rest)[1..] == rest;
  }

  /** Scans what the kernel has put into the buffer: n bytes, or a non-positive n for none. The result lists what
      was done; overlong messages are discarded. The cursor stays within the two terminators. */
  method UeventEvent(msg: array<char>, n: int) returns (done: seq<Action>)
    requires msg.Length == UEVENT_MSG_LEN + 2
    modifies msg
    ensures done == if 0 < n < 2048 then Handled(old(msg[..])[..n]) else []
  {
    hide CString, Split, BeforeEmpty, Actions, Handled, Remaining, IsPartnerAdded, IsStatusChange;
    done := [];
    if n <= 0 {
      return;
    }
    if n >= UEVENT_MSG_LEN {
      return;
    }
    msg[n] := '\0';
    msg[n + 1] := '\0';
    var cp := 0;
    ghost var s := msg[..];
    Terminated(old(msg[..]), s, n);
    RemainingStart(s, n);
    while msg[cp] != '\0'
      invariant 0 <= cp <= n + 1 && msg[..] == s
      invariant Handled(s[..n]) == done + Remaining(s, n, cp)
      decreases n + 1 - cp
    {
      RemainingAfter(s, n, cp);
      var record := CString(msg[cp..]);
      assert msg[cp..] == s[cp..];
      if IsPartnerAdded(record) {
        OneMoreDone(done, PartnerAdded, Remaining(s, n, cp + |record| + 1));
        done := done + [PartnerAdded];
      } else if IsStatusChange(record) {
        done := done + [StatusQuery];
        return;
      }
      cp := AdvancePastNul(msg, cp);
    }
    RemainingEnd(s, n, cp);
  }

  /** The two terminators change nothing before them. */
  lemma Terminated(before: string, s: string, n: nat)
    requires n + 2 <= |before| && s == before[n := '\0'][n + 1 := '\0']
    ensures s[..n] == before[..n] && s[n] == '\0' && s[n + 1] == '\0'
  {
  }

  lemma OneMoreDone(done: seq<Action>, a: Action, rest: seq<Action>)
    ensures done + ([a] + rest) == done + [a] + rest
  {
  }

  lemma RemainingStart(s: string, n: nat)
    requires n <= |s|
    ensures Remaining(s, n, 0) == Handled(s[..n])
  {
  }

  /** The inner loop, `while (*cp++)`. */
  method AdvancePastNul(msg: array<char>, from: nat) returns (cp: nat)
    requires exists i :: from <= i < msg.Length && msg[i] == '\0'
    ensures cp == from + |CString(msg[from..])| + 1 <= msg.Length
  {
    cp := from;
    ghost var end := from + |CString(msg[from..])|;
    CStringEnds(msg[..], from);
    assert msg[..][from..] == msg[from..];
    assert forall k :: from <= k < end ==> msg[k] == CString(msg[from..])[k - from];
    while msg[cp] != '\0'
      invariant from <= cp <= end < msg.Length && msg[end] == '\0'
      invariant forall k :: from <= k < end ==> msg[k] != '\0'
      decreases end - cp
    {
      cp := cp + 1;
    }
    cp := cp + 1;
  }

  lemma {:induction false} CStringEnds(s: string, from: nat)
    requires exists i :: from <= i < |s| && s[i] == '\0'
    ensures from + |CString(s[from..])| < |s| && s[from + |CString(s[from..])|] == '\0'
    decreases |s| - from
  {
    if s[from] != '\0' {
      var i :| from <= i < |s| && s[i] == '\0';
      assert from + 1 <= i;
      CStringEnds(s, from + 1);
      assert s[from..][1..] == s[from + 1..];
    }
  }

  /** A message leads to at most one status query, and it is the last thing done. */
  lemma {:induction false} OneStatusQuery(rs: seq<string>)
    ensures forall i :: 0 <= i < |Actions(rs)| - 1 ==> Actions(rs)[i] == PartnerAdded
  {
    if rs != [] { OneStatusQuery(rs[1..]); }
  }

  // ---------- Messages as the kernel writes them ----------

  /** Records, each ended by a NUL. */
  function Message(rs: seq<string>): string {
    if rs == [] then "" else rs[0] + "\0" + Message(rs[1..])
  }

  predicate IsRecord(r: string) {
    r != [] && '\0' !in r
  }

  lemma {:induction false} CStringStops(r: string, rest: string)
    requires '\0' !in r && (rest == [] || rest[0] == '\0')
    ensures CString(r + rest) == r
  {
    if r != [] {
      assert (r + rest)[1..] == r[1..] + rest;
      CStringStops(r[1..], rest);
    }
  }

  /** The scan finds the records a message was made of, and does what they ask for; what follows an empty record does
      not count. */
  lemma {:induction false} HandlesTheRecords(rs: seq<string>, tail: string)
    requires (forall r :: r in rs ==> IsRecord(r)) && (tail == [] || tail[0] == '\0')
    ensures BeforeEmpty(Split(Message(rs) + tail)) == rs && Handled(Message(rs) + tail) == Actions(rs)
  {
    hide Actions, CString, Split, BeforeEmpty, IsPartnerAdded, IsStatusChange;
    var m := Message(rs) + tail;
    if rs == [] {
      assert m == tail;
      NothingFirst(tail);
    } else {
      var r, rest := rs[0], "\0" + (Message(rs[1..]) + tail);
      assert r in rs && IsRecord(r);
      assert m == r + rest;
      CStringStops(r, rest);
      SplitStep(m);
      assert m[|r| + 1..] == Message(rs[1..]) + tail;
      HandlesTheRecords(rs[1..], tail);
      assert rs == [r] + rs[1..];
    }
  }

  lemma NothingFirst(s: string)
    requires s == [] || s[0] == '\0'
    ensures BeforeEmpty(Split(s)) == []
  {
    assert CString(s) == [];
    assert Split(s)[0] == [];
  }

  // ---------- Which records count ----------

  /** What is done with a message of one record: a partner was added exactly if the record is "add", anything within a
      line, and "-partner"; there is a query exactly for the two beginnings; nothing is done otherwise. */
  lemma OneRecord(r: string)
    requires IsRecord(r)
    ensures Handled(r + "\0") == [PartnerAdded] <==>
            exists mid: string :: r == "add" + mid + "-partner" && '\n' !in mid && '\r' !in mid
    ensures Handled(r + "\0") == [StatusQuery] <==>
            exists rest: string :: r == "DEVTYPE=typec_" + rest || r == "POWER_SUPPLY_MOISTURE_DETECTED" + rest
    ensures Handled(r + "\0") in {[PartnerAdded], [StatusQuery], []}
  {
    var all := [r];
    HandlesTheRecords(all, "");
    assert Message(all) + "" == r + "\0";
    assert all[1..] == [] && Actions(all[1..]) == [];
    hide Handled, Message, IsPartnerAdded, IsStatusChange;
    PartnerRecord(r);
    StatusRecord(r);
    NotBoth(r);
  }

  lemma PartnerRecord(r: string)
    ensures IsPartnerAdded(r) <==> exists mid: string :: r == "add" + mid + "-partner" && '\n' !in mid && '\r' !in mid
  {
    if IsPartnerAdded(r) {
      var mid := r[|ADD|..|r| - |PARTNER|];
      assert r == "add" + mid + "-partner";
    }
    if mid: string :| r == "add" + mid + "-partner" && '\n' !in mid && '\r' !in mid {
      assert r[|ADD|..|r| - |PARTNER|] == mid;
    }
  }

  lemma StatusRecord(r: string)
    ensures IsStatusChange(r) <==>
            exists rest: string :: r == "DEVTYPE=typec_" + rest || r == "POWER_SUPPLY_MOISTURE_DETECTED" + rest
  {
    var p, q := "DEVTYPE=typec_", "POWER_SUPPLY_MOISTURE_DETECTED";
    if p <= r { assert r == p + r[|p|..]; }
    if q <= r { assert r == q + r[|q|..]; }
  }

  lemma NotBoth(r: string)
    ensures !(IsPartnerAdded(r) && IsStatusChange(r))
  {
    if IsPartnerAdded(r) { assert r[0] == 'a'; }
  }

  /** A message is handled record by record, and nothing after its first status query. */
  lemma MessageOfTwo(rs: seq<string>, more: seq<string>)
    requires forall r :: r in rs + more ==> IsRecord(r)
    ensures var first := Handled(Message(rs));
            Handled(Message(rs + more)) == if StatusQuery in first then first else first + Handled(Message(more))
  {
    forall r | r in rs || r in more ensures IsRecord(r) {
      assert r in rs + more;
    }
    HandlesTheRecords(rs, "");
    HandlesTheRecords(more, "");
    HandlesTheRecords(rs + more, "");
    hide Handled, Message;
    assert Message(rs) + "" == Message(rs) && Message(more) + "" == Message(more) && Message(rs + more) + "" == Message(rs + more);
    ActionsOfTwo(rs, more);
  }

  lemma {:induction false} ActionsOfTwo(rs: seq<string>, more: seq<string>)
    ensures Actions(rs + more) == if StatusQuery in Actions(rs) then Actions(rs) else Actions(rs) + Actions(more)
  {
    hide IsPartnerAdded, IsStatusChange;
    if rs == [] {
      assert rs + more == more;
    } else {
      assert (rs + more)[1..] == rs[1..] + more;
      ActionsOfTwo(rs[1..], more);
    }
  }
}
