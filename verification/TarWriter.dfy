/** The archive writer, the file copier and the relay loop (dumpstate/DumpstateDevice.cpp:70-94, 142-198, 353-374). */
module TarWriter {
  import opened Wrappers
  import opened Octal
  import opened TarHeader
  import opened TarReader

  const BUFSIZE := 65536

  /** A file opened for reading: the bytes that read() is still going to deliver, before it reports the end of the
      file or, if `fails`, an error. */
  class InFile {
    var remaining: seq<byte>
    const fails: bool

    constructor (content: seq<byte>, fails: bool)
      ensures remaining == content && this.fails == fails
    {
      remaining, this.fails := content, fails;
    }

    /** As many bytes as the system likes, but at least one while there are any; None is an error. */
    method Read(max: nat) returns (chunk: Option<seq<byte>>)
      requires max > 0
      modifies this`remaining
      ensures chunk == None <==> old(remaining) == [] && fails
      ensures chunk.Some? ==> |chunk.value| <= max && chunk.value + remaining == old(remaining)
      ensures chunk == Some([]) ==> old(remaining) == []
      ensures chunk == None ==> remaining == []
      ensures chunk == Some([]) ==> !fails
    {
      if remaining == [] {
        return if fails then None else Some([]);
      }
      var n :| 1 <= n <= max && n <= |remaining|;
      chunk := Some(remaining[..n]);
      remaining := remaining[n..];
    }
  }

  /** What is in a file after `new` has been written over it from the start. */
  function Overwrite(old_: seq<byte>, new_: seq<byte>): seq<byte> {
    new_ + if |new_| <= |old_| then old_[|new_|..] else []
  }

  /** A file opened with O_WRONLY | O_CREAT: what it held before stays until it is written over. */
  class OutFile {
    var content: seq<byte>
    var written: seq<byte>
    ghost const before: seq<byte>

    ghost predicate Valid()
      reads this
    {
      content == Overwrite(before, written)
    }

    constructor (content: seq<byte>)
      ensures Valid() && before == content && written == []
    {
      this.content, written := content, [];
      before := content;
    }

    method Write(bytes: seq<byte>)
      requires Valid()
      modifies this
      ensures Valid() && written == old(written) + bytes
    {
      var end := |written| + |bytes|;
      content := content[..|written|] + bytes + if end <= |content| then content[end..] else [];
      written := written + bytes;
    }
  }

  // ---------- createTarFile ----------

  /** A directory entry: whether it opens, what fstat says its size is, the bytes reading it delivers, and whether
      writing its header succeeds. */
  datatype Entry = Entry(name: seq<byte>, opens: bool, size: nat, content: seq<byte>, headerWritten: bool)
  {
    predicate WellFormed() { DirentName(name) && FileSize(size) }
    predicate Hidden() { |name| > 0 && name[0] == 46 }
    predicate Selected() { !Hidden() && opens && headerWritten }
  }

  predicate Directory(dir: seq<Entry>) {
    forall e :: e in dir ==> e.WellFormed()
  }

  function Padding(n: nat): (p: seq<byte>)
    ensures |p| < BLOCK && (n + |p|) % BLOCK == 0
  {
    Zeros((BLOCK - n % BLOCK) % BLOCK)
  }

  /** What one entry adds to the archive. */
  function Member(e: Entry): seq<byte>
    requires e.WellFormed()
  {
    if !e.Selected() then [] else Header(e.name, e.size) + e.content + Padding(|e.content|)
  }

  function Archive(dir: seq<Entry>): seq<byte>
    requires Directory(dir)
  {
    if dir == [] then [] else Archive(dir[..|dir| - 1]) + Member(dir[|dir| - 1])
  }

  lemma SumOfMultiples(m: nat, n: nat)
    requires m % BLOCK == 0
    ensures (m + n) % BLOCK == n % BLOCK
  {
  }

  /** Every file boundary of an archive is a block boundary. */
  lemma {:induction false} Aligned(dir: seq<Entry>)
    requires Directory(dir)
    ensures |Archive(dir)| % BLOCK == 0
  {
    hide Header, Padding;
    if dir != [] {
      var e := dir[|dir| - 1];
      Aligned(dir[..|dir| - 1]);
      SumOfMultiples(|Archive(dir[..|dir| - 1])|, |Member(e)|);
      SumOfMultiples(BLOCK, |e.content| + |Padding(|e.content|)|);
    }
  }

  /** Appends the archive of a directory, in the order readdir delivers it; `dir` is None if it does not open and
      `tar` is null if the output does not. */
  method CreateTarFile(tar: OutFile?, dir: Option<seq<Entry>>) returns (tarLen: nat)
    requires tar != null ==> tar.Valid() && tar.written == []
    requires dir.Some? ==> Directory(dir.value)
    modifies tar
    ensures tar != null ==> tar.Valid() && tar.written == if dir == None then [] else Archive(dir.value)
    ensures tarLen == if tar == null || dir == None then 0 else |Archive(dir.value)|
    ensures tarLen % BLOCK == 0
  {
    hide Member, Archive, Overwrite;
    tarLen := 0;
    EmptyArchive();
    if dir == None || tar == null {
      return;
    }
    var header := new byte[BLOCK](_ => NUL);
    for i := 0 to |dir.value|
      invariant tar.Valid() && tar.written == Archive(dir.value[..i]) && tarLen == |tar.written|
    {
      ArchiveStep(dir.value, i);
      Aligned(dir.value[..i]);
      tarLen := AppendMember(tar, header, dir.value[i], tarLen);
    }
    assert dir.value[..|dir.value|] == dir.value;
    Aligned(dir.value);
  }

  lemma EmptyArchive()
    ensures Archive([]) == []
  {
  }

  lemma ArchiveStep(dir: seq<Entry>, i: nat)
    requires Directory(dir) && i < |dir|
    ensures dir[i].WellFormed() && Archive(dir[..i + 1]) == Archive(dir[..i]) + Member(dir[i])
  {
    assert dir[..i + 1][..i] == dir[..i];
    assert dir[i] in dir;
  }

  /** One turn of the loop over the directory. */
  method AppendMember(tar: OutFile, header: array<byte>, e: Entry, len: nat) returns (tarLen: nat)
    requires tar.Valid() && header.Length == BLOCK && len == |tar.written| && len % BLOCK == 0 && e.WellFormed()
    modifies tar, header
    ensures tar.Valid() && tar.written == old(tar.written) + Member(e) && tarLen == |tar.written|
  {
    hide Header, Padding, Overwrite;
    tarLen := len;
    if e.Hidden() || !e.opens {
      return;
    }
    FillTarHeader(header, e.name, e.size);
    if !e.headerWritten {
      return;
    }
    tar.Write(header[..]);
    tarLen := tarLen + BLOCK;
    var size := AppendFile(tar, e.content);
    SumOfMultiples(tarLen, size);
    tarLen := tarLen + size;
    tarLen := Pad(tar, tarLen, |e.content|);
  }

  /** The loop that copies a file's bytes chunk by chunk, whatever the chunks. */
  method AppendFile(tar: OutFile, content: seq<byte>) returns (size: nat)
    requires tar.Valid()
    modifies tar
    ensures tar.Valid() && tar.written == old(tar.written) + content && size == |content|
  {
    var fails: bool := *;
    var fd := new InFile(content, fails);
    size := 0;
    var chunk := fd.Read(BUFSIZE);
    while chunk.Some? && chunk.value != []
      invariant tar.Valid() && fresh(fd)
      invariant chunk.Some? ==> tar.written + chunk.value + fd.remaining == old(tar.written) + content
      invariant chunk == None || chunk == Some([]) ==> fd.remaining == []
      invariant chunk == None ==> tar.written == old(tar.written) + content
      invariant |tar.written| == |old(tar.written)| + size
      decreases |fd.remaining| + if chunk.Some? then |chunk.value| else 0
    {
      tar.Write(chunk.value);
      size := size + |chunk.value|;
      chunk := fd.Read(BUFSIZE);
    }
  }

  /** The loop that writes single zero bytes up to the next block boundary. */
  method Pad(tar: OutFile, tarLen: nat, size: nat) returns (padded: nat)
    requires tar.Valid() && tarLen % BLOCK == size % BLOCK
    modifies tar
    ensures tar.Valid() && tar.written == old(tar.written) + Padding(size)
    ensures padded == tarLen + |Padding(size)|
  {
    padded := tarLen;
    while padded % BLOCK != 0
      invariant tarLen <= padded <= tarLen + |Padding(size)|
      invariant tar.Valid() && tar.written == old(tar.written) + Padding(size)[..padded - tarLen]
      decreases tarLen + |Padding(size)| - padded
    {
      tar.Write([NUL]);
      padded := padded + 1;
    }
    assert Padding(size)[..|Padding(size)|] == Padding(size);
  }

  // ---------- copyFile and the relay ----------

  /** Copies a file over another: the destination keeps its old bytes beyond the length of the source. `src` is
      None and `dest` null when they do not open. */
  method CopyFile(src: Option<seq<byte>>, dest: OutFile?)
    requires dest != null ==> dest.Valid() && dest.written == []
    modifies dest
    ensures dest != null && src.Some? ==> dest.Valid() && dest.content == Overwrite(dest.before, src.value)
    ensures dest != null && src == None ==> dest.content == old(dest.content)
  {
    if src == None || dest == null {
      return;
    }
    var size := AppendFile(dest, src.value);
  }

  /** The descriptor the archive is relayed to: a write may take fewer bytes than it is given. */
  class Sink {
    var received: seq<byte>
    /** Whether a write has failed or taken fewer bytes than it was given. */
    var refused: bool

    method Write(bytes: seq<byte>) returns (result: int)
      modifies this
      ensures result <= |bytes|
      ensures received == old(received) + if result < 0 then [] else bytes[..result]
      ensures refused <==> old(refused) || result != |bytes|
    {
      result :| -1 <= result <= |bytes|;
      received := received + if result < 0 then [] else bytes[..result];
      refused := refused || result != |bytes|;
    }
  }

  /** Relays a file until its end, a read error or a short write: a prefix of it arrives in every case, and all of
      it exactly when no read fails and no write is short. */
  method Relay(log: InFile, modem: Sink) returns (complete: bool)
    requires !modem.refused
    modifies log, modem
    ensures old(modem.received) <= modem.received <= old(modem.received) + old(log.remaining)
    ensures complete <==> !log.fails && !modem.refused
    ensures !modem.refused ==> modem.received == old(modem.received) + old(log.remaining)
  {
    ghost var sent := [];
    while true
      invariant modem.received == old(modem.received) + sent && sent + log.remaining == old(log.remaining)
      invariant !modem.refused
      decreases |log.remaining|
    {
      var chunk := log.Read(BUFSIZE);
      if chunk == Some([]) {
        return true;
      } else if chunk == None {
        return false;
      }
      ghost var rest := log.remaining;
      var result := modem.Write(chunk.value);
      if result != |chunk.value| {
        ghost var part := if result < 0 then [] else chunk.value[..result];
        assert sent + part + (chunk.value[|part|..] + rest) == old(log.remaining);
        return false;
      }
      sent := sent + chunk.value;
    }
  }
}
