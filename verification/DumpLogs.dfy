/** Selection of the newest logs of a directory (dumpstate/DumpstateDevice.cpp:200-241). */
module DumpLogs {
  import opened Wrappers

  /** `strncmp(name, prefix, strlen(prefix)) == 0`. */
  predicate Matches(name: string, prefix: string) {
    prefix <= name
  }

  /** The matching names of a listing, in its order. */
  function Matching(names: seq<string>, prefix: string): seq<string> {
    if names == [] then []
    else (if Matches(names[0], prefix) then [names[0]] else []) + Matching(names[1..], prefix)
  }

  /** How many of m matching names are copied: all for -1, none for other negative limits. */
  function Limit(maxFileNum: int, m: nat): nat {
    if maxFileNum == -1 then m else if maxFileNum < 0 then 0 else if maxFileNum < m then maxFileNum else m
  }

  function Reversed(s: seq<string>): (r: seq<string>)
    ensures |r| == |s|
  {
    if s == [] then [] else Reversed(s[1..]) + [s[0]]
  }

  lemma {:induction false} ReversedAt(s: seq<string>, i: nat)
    requires i < |s|
    ensures Reversed(s)[i] == s[|s| - 1 - i]
  {
    if i < |s| - 1 { ReversedAt(s[1..], i); }
  }

  /** The matching names that are copied: the last ones of the listing. */
  function Newest(names: seq<string>, prefix: string, maxFileNum: int): seq<string> {
    var m := Matching(names, prefix);
    m[|m| - Limit(maxFileNum, |m|)..]
  }

  /** As many of the matching names as the limit allows, the i-th being the i-th from the end. */
  predicate FromTheEnd(copied: seq<string>, m: seq<string>, maxFileNum: int) {
    |copied| == Limit(maxFileNum, |m|) && forall i :: 0 <= i < |copied| ==> copied[i] == m[|m| - 1 - i]
  }

  /** Copies from the end of the listing backwards; the result lists the copied names in the order of copying.
      `listing` is None when scandir fails. */
  method CopyNewest(listing: Option<seq<string>>, prefix: string, maxFileNum: int) returns (copied: seq<string>)
    ensures copied == if listing == None then [] else Reversed(Newest(listing.value, prefix, maxFileNum))
    ensures listing.Some? ==> FromTheEnd(copied, Matching(listing.value, prefix), maxFileNum)
  {
    copied := [];
    if listing == None {
      return;
    }
    hide Matches, Matching, Limit, Newest, Reversed, FromTheEnd;
    var names, copiedFiles := listing.value, 0;
    NewestOfNone(names, prefix, maxFileNum);
    for i := |names| downto 0
      invariant copied == Reversed(Newest(names[i..], prefix, maxFileNum))
      invariant copiedFiles == |copied|
    {
      NewestAt(names, i, prefix, maxFileNum);
      if !Matches(names[i], prefix) {
        continue;
      }
      if copiedFiles >= maxFileNum && maxFileNum != -1 {
        continue;
      }
      ReversedStep(names[i], Newest(names[i + 1..], prefix, maxFileNum));
      copiedFiles := copiedFiles + 1;
      copied := copied + [names[i]];
    }
    assert names[0..] == names;
    CopiedOneByOne(names, prefix, maxFileNum);
  }

  lemma NewestOfNone(names: seq<string>, prefix: string, maxFileNum: int)
    ensures Reversed(Newest(names[|names|..], prefix, maxFileNum)) == []
  {
  }

  lemma NewestAt(names: seq<string>, i: nat, prefix: string, maxFileNum: int)
    requires i < |names|
    ensures var rest := Newest(names[i + 1..], prefix, maxFileNum);
            Newest(names[i..], prefix, maxFileNum) ==
            if Matches(names[i], prefix) && (|rest| < maxFileNum || maxFileNum == -1) then [names[i]] + rest else rest
  {
    hide Matches, Newest;
    assert names[i..][1..] == names[i + 1..];
    NewestStep(names[i..], prefix, maxFileNum);
  }

  lemma ReversedStep(x: string, s: seq<string>)
    ensures Reversed([x] + s) == Reversed(s) + [x]
  {
    assert ([x] + s)[1..] == s;
  }

  lemma CopiedOneByOne(names: seq<string>, prefix: string, maxFileNum: int)
    ensures FromTheEnd(Reversed(Newest(names, prefix, maxFileNum)), Matching(names, prefix), maxFileNum)
  {
    var newest := Newest(names, prefix, maxFileNum);
    hide Matching, Reversed, Matches;
    forall i | 0 <= i < |newest| ensures Reversed(newest)[i] == newest[|newest| - 1 - i] {
      ReversedAt(newest, i);
    }
  }

  /** One more name at the front of the listing: it is copied if it matches and the limit is not reached. */
  lemma NewestStep(names: seq<string>, prefix: string, maxFileNum: int)
    requires names != []
    ensures var rest := Newest(names[1..], prefix, maxFileNum);
            Newest(names, prefix, maxFileNum) ==
            if Matches(names[0], prefix) && (|rest| < maxFileNum || maxFileNum == -1) then [names[0]] + rest else rest
  {
    var m, n := Matching(names, prefix), Matching(names[1..], prefix);
    assert m == if Matches(names[0], prefix) then [names[0]] + n else n;
    assert Limit(maxFileNum, |n|) <= |n|;
  }

  // ---------- The newest ones ----------

  /** The order of `alphasort`, where names are compared byte by byte. */
  predicate AtMost(a: string, b: string) {
    a == [] || (b != [] && (a[0] < b[0] || (a[0] == b[0] && AtMost(a[1..], b[1..]))))
  }

  predicate Sorted(names: seq<string>) {
    forall i, j :: 0 <= i < j < |names| ==> AtMost(names[i], names[j])
  }

  lemma {:induction false} MatchingSorted(names: seq<string>, prefix: string)
    requires Sorted(names)
    ensures Sorted(Matching(names, prefix)) && forall x :: x in Matching(names, prefix) ==> x in names
  {
    hide AtMost;
    if names != [] {
      MatchingSorted(names[1..], prefix);
      var n := Matching(names[1..], prefix);
      forall j | 0 <= j < |n| ensures AtMost(names[0], n[j]) {
        assert n[j] in names[1..];
      }
    }
  }

  /** The copied names are the newest: they and the skipped ones make up all matching names, there are as many as
      the limit allows, and every copied name is at or above every skipped one. */
  lemma CopiedAreNewest(names: seq<string>, prefix: string, maxFileNum: int, skipped: seq<string>, n: nat)
    requires Sorted(names) && Matching(names, prefix) == skipped + Newest(names, prefix, maxFileNum)
    ensures n <= |Newest(names, prefix, maxFileNum)| <==>
            n == 0 || (n <= |Matching(names, prefix)| && (n <= maxFileNum || maxFileNum == -1))
    ensures forall x, y :: x in skipped && y in Newest(names, prefix, maxFileNum) ==> AtMost(x, y)
  {
    hide AtMost, Matching;
    MatchingSorted(names, prefix);
    var m, copied := Matching(names, prefix), Newest(names, prefix, maxFileNum);
    forall x, y | x in skipped && y in copied ensures AtMost(x, y) {
      var i :| 0 <= i < |skipped| && skipped[i] == x;
      var j :| 0 <= j < |copied| && copied[j] == y;
      assert m[i] == x && m[|skipped| + j] == y;
    }
  }

  /** The matching names are those of the listing that begin with the prefix, each as often as it is listed. */
  lemma {:induction false} MatchingIff(names: seq<string>, prefix: string, x: string)
    ensures (exists rest: string :: x == prefix + rest) ==> multiset(Matching(names, prefix))[x] == multiset(names)[x]
    ensures !(exists rest: string :: x == prefix + rest) ==> x !in Matching(names, prefix)
  {
    MatchesIff(x, prefix);
    if names != [] {
      MatchingIff(names[1..], prefix, x);
      assert names == [names[0]] + names[1..];
    }
    hide Matches;
  }

  lemma MatchesIff(name: string, prefix: string)
    ensures Matches(name, prefix) <==> exists rest: string :: name == prefix + rest
  {
    if Matches(name, prefix) { assert name == prefix + name[|prefix|..]; }
  }

  /** Where two names first differ. */
  predicate DiffersAt(a: string, b: string, i: nat) {
    i < |a| && i < |b| && a[..i] == b[..i] && a[i] != b[i]
  }

  /** The first difference decides, and a name comes before its continuations. */
  lemma {:induction false} FirstDifference(a: string, b: string, i: nat)
    ensures DiffersAt(a, b, i) ==> (AtMost(a, b) <==> a[i] < b[i])
    ensures a <= b ==> AtMost(a, b)
    ensures b < a ==> !AtMost(a, b)
  {
    if a != [] && b != [] && a[0] == b[0] {
      assert a == [a[0]] + a[1..] && b == [b[0]] + b[1..];
      if i > 0 && DiffersAt(a, b, i) {
        assert a[1..][..i - 1] == a[..i][1..] && b[1..][..i - 1] == b[..i][1..];
        FirstDifference(a[1..], b[1..], i - 1);
      } else {
        FirstDifference(a[1..], b[1..], 0);
      }
    }
  }

  /** One of the three holds of any two names, so the order is total. */
  lemma {:induction false} SomeDifference(a: string, b: string)
    ensures a <= b || b < a || exists i: nat :: DiffersAt(a, b, i)
  {
    if a != [] && b != [] {
      if a[0] == b[0] {
        assert a == [a[0]] + a[1..] && b == [b[0]] + b[1..];
        SomeDifference(a[1..], b[1..]);
        if i: nat :| DiffersAt(a[1..], b[1..], i) {
          assert a[..i + 1] == [a[0]] + a[1..][..i] && b[..i + 1] == [b[0]] + b[1..][..i];
          assert DiffersAt(a, b, i + 1);
        }
      } else {
        assert DiffersAt(a, b, 0);
      }
    }
  }
}
