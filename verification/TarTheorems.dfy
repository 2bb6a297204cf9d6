/** Reading back what the archive writer wrote. */
module TarTheorems {
  import opened Wrappers
  import opened Octal
  import opened TarHeader
  import opened TarReader
  import opened TarWriter

  /** The files an archive is made for: those that open, whose header can be written, and whose name does not begin
      with a dot. */
  function Expected(dir: seq<Entry>): seq<File> {
    if dir == [] then []
    else
      var e := dir[0];
      (if e.opens && e.headerWritten && !([46] <= e.name) then [File(e.name, e.content)] else []) + Expected(dir[1..])
  }

  /** An entry the format has room for, whose reads deliver what fstat announced. */
  predicate Faithful(e: Entry) {
    |e.name| <= 100 && Recorded(e.size) == |e.content|
  }

  lemma {:induction false} ArchiveFromFront(dir: seq<Entry>)
    requires Directory(dir) && dir != []
    ensures Archive(dir) == Member(dir[0]) + Archive(dir[1..])
  {
    hide Member, Archive;
    var last := |dir| - 1;
    ArchiveToLast(dir);
    if last == 0 {
      assert dir[..0] == [] == dir[1..];
      EmptyArchive();
    } else {
      ArchiveFromFront(dir[..last]);
      assert dir[..last][1..] == dir[1..][..last - 1] && dir[1..][last - 1] == dir[last];
      ArchiveToLast(dir[1..]);
      assert Member(dir[0]) + Archive(dir[1..][..last - 1]) + Member(dir[last])
          == Member(dir[0]) + (Archive(dir[1..][..last - 1]) + Member(dir[last]));
    }
  }

  lemma ArchiveToLast(dir: seq<Entry>)
    requires Directory(dir) && dir != []
    ensures Archive(dir) == Archive(dir[..|dir| - 1]) + Member(dir[|dir| - 1])
  {
    hide Member;
  }

  /** A member at the front of an archive. Faithful, it is read back whole and the reader goes on behind its
      padding; otherwise whatever is read is not the file. */
  lemma ReadMember(e: Entry, rest: seq<byte>)
    requires e.WellFormed() && e.Selected()
    ensures Faithful(e) ==>
              ReadArchive(Member(e) + rest) == match ReadArchive(rest)
                case None => None
                case Some(files) => Some([File(e.name, e.content)] + files)
    ensures !Faithful(e) ==>
              var r := ReadArchive(Member(e) + rest);
              r.Some? ==> r.value != [] && r.value[0] != File(e.name, e.content)
  {
    hide Header, ReadHeader, Recorded, Padding, RoundUp, Zeros;
    var h, bytes := Header(e.name, e.size), Member(e) + rest;
    HeaderRoundTrip(e.name, e.size);
    Fields(e.name, e.size);
    var body := bytes[BLOCK..];
    assert bytes[..BLOCK] == h;
    assert body == e.content + Padding(|e.content|) + rest;
    assert h != Zeros(BLOCK);
    var size := Recorded(e.size);
    if Faithful(e) {
      RoundUpIsPadding(|e.content|);
      assert body[..size] == e.content;
      assert body[RoundUp(size)..] == rest;
    }
  }

  lemma RoundUpIsPadding(n: nat)
    ensures RoundUp(n) == n + |Padding(n)|
  {
  }

  /** The archive round trip, for every directory and whatever follows the archive: reading back yields exactly the
      selected files, in order, if and only if every selected entry is faithful and what follows reads as nothing. */
  lemma {:induction false} ArchiveRoundTrip(dir: seq<Entry>, tail: seq<byte>)
    requires Directory(dir)
    ensures ReadArchive(Archive(dir) + tail) == Some(Expected(dir))
       <==> (forall e :: e in dir && e.Selected() ==> Faithful(e)) && ReadArchive(tail) == Some([])
  {
    hide Member, ReadArchive, Faithful;
    if dir == [] {
      assert Archive(dir) + tail == tail;
    } else {
      var e, rest := dir[0], dir[1..];
      assert dir == [e] + rest;
      ArchiveFromFront(dir);
      ArchiveRoundTrip(rest, tail);
      if e.Selected() {
        assert Archive(dir) + tail == Member(e) + (Archive(rest) + tail);
        ReadMember(e, Archive(rest) + tail);
        var f := File(e.name, e.content);
        assert Expected(dir)[0] == f && Expected(dir)[1..] == Expected(rest);
        if ReadArchive(Archive(rest) + tail).Some? {
          var files := ReadArchive(Archive(rest) + tail).value;
          assert ([f] + files)[1..] == files;
        }
      } else {
        SkippedMember(e);
        assert Archive(dir) + tail == Archive(rest) + tail;
        assert Expected(dir) == Expected(rest);
      }
    }
  }

  lemma SkippedMember(e: Entry)
    requires e.WellFormed() && !e.Selected()
    ensures Member(e) == []
  {
  }

  /** What reads as nothing: the end of the bytes, or a block of zeros whatever follows it. */
  lemma ReadsAsNothing(tail: seq<byte>)
    ensures ReadArchive(tail) == Some([]) <==> tail == [] || (|tail| >= BLOCK && tail[..BLOCK] == Zeros(BLOCK))
  {
    hide ReadHeader;
  }

  /** The same for the file createTarFile leaves, which is not truncated first: what it held before must have been
      no longer than the archive, or zero for a block from there on. */
  lemma OutputRoundTrip(dir: seq<Entry>, before: seq<byte>)
    requires Directory(dir) && forall e :: e in dir && e.Selected() ==> Faithful(e)
    ensures var end := |Archive(dir)|;
            (ReadArchive(Overwrite(before, Archive(dir))) == Some(Expected(dir))
             <==> |before| <= end || (|before| >= end + BLOCK && before[end..end + BLOCK] == Zeros(BLOCK)))
  {
    hide Archive, ReadArchive, Faithful, Expected;
    var end := |Archive(dir)|;
    var tail := if end <= |before| then before[end..] else [];
    assert Overwrite(before, Archive(dir)) == Archive(dir) + tail;
    ArchiveRoundTrip(dir, tail);
    ReadsAsNothing(tail);
    if |tail| >= BLOCK { assert tail[..BLOCK] == before[end..end + BLOCK]; }
  }

  /** The blocks of an archive: one header and the rounded-up contents per selected entry. */
  function Blocks(dir: seq<Entry>): nat {
    if dir == [] then 0
    else Blocks(dir[..|dir| - 1])
         + if dir[|dir| - 1].Selected() then 1 + RoundUp(|dir[|dir| - 1].content|) / BLOCK else 0
  }

  lemma {:induction false} ArchiveLength(dir: seq<Entry>)
    requires Directory(dir)
    ensures |Archive(dir)| == BLOCK * Blocks(dir)
  {
    if dir != [] {
      var e := dir[|dir| - 1];
      ArchiveLength(dir[..|dir| - 1]);
      RoundUpIsPadding(|e.content|);
    }
  }

  // ---------- An archive that is cut short ----------

  /** Where the member of some entry ends, or the first begins. */
  predicate MemberBoundary(dir: seq<Entry>, n: nat)
    requires Directory(dir)
  {
    exists i :: 0 <= i <= |dir| && n == |Archive(dir[..i])|
  }

  /** A proper part of a member reads as no archive. */
  lemma CutMember(e: Entry, n: nat)
    requires e.WellFormed() && e.Selected() && Faithful(e) && 0 < n < |Member(e)|
    ensures ReadArchive(Member(e)[..n]) == None
  {
    hide Header, ReadHeader, Recorded, Padding, RoundUp, Zeros;
    var h, bytes := Header(e.name, e.size), Member(e)[..n];
    HeaderRoundTrip(e.name, e.size);
    Fields(e.name, e.size);
    RoundUpIsPadding(|e.content|);
    assert h != Zeros(BLOCK);
    if n >= BLOCK {
      assert bytes[..BLOCK] == h;
    }
  }

  /** The members of the entries before i, from the front. */
  lemma BoundaryFromFront(dir: seq<Entry>, i: nat)
    requires Directory(dir) && 0 < i <= |dir|
    ensures Directory(dir[..i]) && Directory(dir[1..])
    ensures Archive(dir[..i]) == Member(dir[0]) + Archive(dir[1..][..i - 1])
    ensures Expected(dir[..i]) == Expected([dir[0]]) + Expected(dir[1..][..i - 1])
  {
    hide *;
    PartsOfDirectory(dir, i);
    var front := dir[..i];
    ArchiveFromFront(front);
    assert front[0] == dir[0] && front[1..] == dir[1..][..i - 1];
    ExpectedFromFront(front);
  }

  lemma PartsOfDirectory(dir: seq<Entry>, i: nat)
    requires Directory(dir) && 0 < i <= |dir|
    ensures Directory(dir[..i]) && Directory(dir[1..]) && Directory(dir[1..][..i - 1])
  {
  }

  lemma ExpectedFromFront(dir: seq<Entry>)
    requires dir != []
    ensures Expected(dir) == Expected([dir[0]]) + Expected(dir[1..])
  {
    assert [dir[0]][1..] == [];
  }

  lemma BoundaryStep(dir: seq<Entry>, n: nat)
    requires Directory(dir) && dir != [] && n >= |Member(dir[0])| && (n > 0 || !dir[0].Selected())
    ensures Directory(dir[1..])
    ensures MemberBoundary(dir, n) <==> MemberBoundary(dir[1..], n - |Member(dir[0])|)
  {
    hide Archive, Member;
    var m, rest := |Member(dir[0])|, dir[1..];
    if MemberBoundary(dir, n) {
      var i :| 0 <= i <= |dir| && n == |Archive(dir[..i])|;
      if i > 0 {
        BoundaryFromFront(dir, i);
        assert n - m == |Archive(rest[..i - 1])|;
      } else {
        ArchiveOfNone(dir);
        ArchiveOfNone(rest);
        assert n - m == |Archive(rest[..0])|;
      }
    }
    if MemberBoundary(rest, n - m) {
      var i :| 0 <= i <= |rest| && n - m == |Archive(rest[..i])|;
      BoundaryFromFront(dir, i + 1);
      assert n == |Archive(dir[..i + 1])|;
    }
  }

  lemma ArchiveOfNone(dir: seq<Entry>)
    ensures Archive(dir[..0]) == []
  {
    assert dir[..0] == [];
  }

  /** What is read from the front of an archive that has been cut at n: something if and only if the cut is at a member
      boundary, and then exactly the files before it, with no sign of a loss. */
  lemma {:induction false} CutArchive(dir: seq<Entry>, n: nat)
    requires Directory(dir) && (forall e :: e in dir && e.Selected() ==> Faithful(e)) && n <= |Archive(dir)|
    ensures ReadArchive(Archive(dir)[..n]).Some? <==> MemberBoundary(dir, n)
    ensures forall i :: 0 <= i <= |dir| && n == |Archive(dir[..i])| ==> ReadArchive(Archive(dir)[..n]) == Some(Expected(dir[..i]))
    decreases |dir|
  {
    hide Member, ReadArchive, Faithful, Archive, MemberBoundary, Expected;
    CutAtNothing(dir);
    if dir != [] {
      var e, m := dir[0], |Member(dir[0])|;
      ArchiveFromFront(dir);
      assert e in dir && dir == [e] + dir[1..];
      if n >= m && (n > 0 || !e.Selected()) {
        CutArchive(dir[1..], n - m);
        CutBehind(dir, n);
      } else {
        MemberIsLong(e);
        NoBoundaryWithin(dir, n);
        if n > 0 {
          assert Archive(dir)[..n] == Member(e)[..n];
          CutMember(e, n);
          ArchiveOfNone(dir);
        } else {
          assert ReadArchive(Archive(dir)[..n]) == Some([]);
          assert MemberBoundary(dir, n);
        }
      }
    } else {
      ArchiveOfNone(dir);
      assert dir == dir[..0];
    }
  }

  lemma ExpectedOfOne(e: Entry)
    ensures Expected([e]) == if e.Selected() then [File(e.name, e.content)] else []
  {
    assert [e][1..] == [];
  }

  lemma CutAtNothing(dir: seq<Entry>)
    requires Directory(dir)
    ensures ReadArchive(Archive(dir)[..0]) == Some([]) && MemberBoundary(dir, 0) && Expected(dir[..0]) == []
  {
    hide Archive;
    ArchiveOfNone(dir);
    assert |Archive(dir[..0])| == 0;
    ReadsAsNothing(Archive(dir)[..0]);
  }

  lemma MemberIsLong(e: Entry)
    requires e.WellFormed()
    ensures if e.Selected() then |Member(e)| >= BLOCK else Member(e) == []
  {
    hide Header, Padding;
  }

  /** No boundary but the first lies before the end of the first member. */
  lemma NoBoundaryWithin(dir: seq<Entry>, n: nat)
    requires Directory(dir) && dir != [] && n < |Member(dir[0])|
    ensures MemberBoundary(dir, n) <==> n == 0
    ensures forall i :: 0 <= i <= |dir| && n == |Archive(dir[..i])| ==> i == 0
  {
    hide Archive, Member;
    ArchiveOfNone(dir);
    forall i | 0 <= i <= |dir| && n == |Archive(dir[..i])| ensures i == 0 {
      if i > 0 { BoundaryFromFront(dir, i); }
    }
    assert |Archive(dir[..0])| == 0;
  }

  /** A cut behind the first member is one of the rest. */
  lemma CutBehind(dir: seq<Entry>, n: nat)
    requires Directory(dir) && dir != [] && (dir[0].Selected() ==> Faithful(dir[0]) && n > 0)
    requires Archive(dir) == Member(dir[0]) + Archive(dir[1..]) && |Member(dir[0])| <= n <= |Archive(dir)|
    requires var rest, k := dir[1..], n - |Member(dir[0])|;
             && (ReadArchive(Archive(rest)[..k]).Some? <==> MemberBoundary(rest, k))
             && forall i :: 0 <= i <= |rest| && k == |Archive(rest[..i])| ==> ReadArchive(Archive(rest)[..k]) == Some(Expected(rest[..i]))
    ensures ReadArchive(Archive(dir)[..n]).Some? <==> MemberBoundary(dir, n)
    ensures forall i :: 0 <= i <= |dir| && n == |Archive(dir[..i])| ==> ReadArchive(Archive(dir)[..n]) == Some(Expected(dir[..i]))
  {
    hide Member, ReadArchive, Faithful, Archive, MemberBoundary, Expected;
    var e, rest, k := dir[0], dir[1..], n - |Member(dir[0])|;
    MemberIsLong(e);
    BoundaryStep(dir, n);
    CutAtNothing(dir);
    ArchiveOfNone(dir);
    assert Archive(dir)[..n] == Member(e) + Archive(rest)[..k];
    if e.Selected() {
      ReadMember(e, Archive(rest)[..k]);
    } else {
      assert Archive(dir)[..n] == Archive(rest)[..k];
    }
    forall i | 0 < i <= |dir| && n == |Archive(dir[..i])| ensures ReadArchive(Archive(dir)[..n]) == Some(Expected(dir[..i])) {
      BoundaryFromFront(dir, i);
      assert k == |Archive(rest[..i - 1])|;
      ExpectedOfOne(e);
      assert [] + Expected(rest[..i - 1]) == Expected(rest[..i - 1]);
    }
  }
}
