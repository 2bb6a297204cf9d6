/** The 512-byte member header: how the archive writer fills it in place, and how an independent reader of the
    ustar Interchange Format (IEEE Std 1003.1, pax, EXTENDED DESCRIPTION) takes it apart
    (dumpstate/DumpstateDevice.cpp:96-140). */
module TarHeader {
  import opened Wrappers
  import opened Octal

  const BLOCK := 512

  /** "ustar" and the '0' of a regular file. */
  const USTAR: seq<byte> := [117, 115, 116, 97, 114]
  const REGULAR: byte := 48

  /** A block with `t` written over it from `at` on. */
  function Splice(s: seq<byte>, at: nat, t: seq<byte>): (r: seq<byte>)
    requires at + |t| <= |s|
    ensures |r| == |s|
    ensures forall i :: 0 <= i < |s| ==> r[i] == if at <= i < at + |t| then t[i - at] else s[i]
  {
    s[..at] + t + s[at + |t|..]
  }

  /** Names as a directory entry can hold them. */
  predicate DirentName(name: seq<byte>) {
    |name| <= 255 && NUL !in name
  }

  /** Sizes as `off_t` can hold them. */
  predicate FileSize(size: nat) {
    size < 0x8000_0000_0000_0000
  }

  lemma FileSizeText(size: nat)
    requires FileSize(size)
    ensures 11 <= |Padded(size, 11)| <= 21
  {
    DigitCount(size, 21);
    assert Pow8(7) == 0x20_0000;
    assert Pow8(14) == 0x20_0000 * 0x20_0000;
    assert Pow8(21) == 0x8000_0000_0000_0000;
  }

  // ---------- The writer ----------

  function SumBytes(s: seq<byte>): nat {
    if s == [] then 0 else SumBytes(s[..|s| - 1]) + s[|s| - 1]
  }

  lemma {:induction false} SumBound(s: seq<byte>)
    ensures SumBytes(s) <= 255 * |s|
  {
    if s != [] { SumBound(s[..|s| - 1]); }
  }

  const SPACES: seq<byte> := [SPACE, SPACE, SPACE, SPACE, SPACE, SPACE, SPACE, SPACE]

  /** The header before its checksum is computed. */
  function Unsummed(name: seq<byte>, size: nat): (h: seq<byte>)
    requires DirentName(name) && FileSize(size)
    ensures |h| == BLOCK
  {
    FileSizeText(size);
    var named := Splice(Zeros(BLOCK), 0, name + [NUL]);
    var moded := Splice(named, 100, Padded(384, 7) + [NUL]);
    var sized := Splice(moded, 124, Padded(size, 11) + [NUL]);
    var timed := Splice(sized, 136, Padded(0, 11) + [NUL]);
    var typed := timed[156 := REGULAR];
    var magic := Splice(typed, 257, USTAR + [NUL]);
    Splice(magic, 263, [SPACE, NUL])
  }

  /** The finished header. */
  function Header(name: seq<byte>, size: nat): (h: seq<byte>)
    requires DirentName(name) && FileSize(size)
    ensures |h| == BLOCK
  {
    var h := Splice(Unsummed(name, size), 148, SPACES);
    SumText(h);
    Splice(h, 148, Padded(SumBytes(h), 6) + [NUL])
  }

  /** Six digits are enough for the sum of a block. */
  lemma SumText(h: seq<byte>)
    requires |h| == BLOCK
    ensures |Padded(SumBytes(h), 6)| == 6
  {
    SumBound(h);
    DigitCount(SumBytes(h), 6);
    assert Pow8(6) == 262144;
  }

  /** `strcpy` and `sprintf` into a field: the text and its terminating NUL. */
  method Print(block: array<byte>, at: nat, text: seq<byte>)
    requires at + |text| + 1 <= block.Length
    modifies block
    ensures block[..] == Splice(old(block[..]), at, text + [NUL])
  {
    for i := 0 to |text|
      invariant block[..] == Splice(old(block[..]), at, text[..i])
    {
      block[at + i] := text[i];
    }
    block[at + |text|] := NUL;
  }

  method TarCheckSum(header: array<byte>) returns (sum: nat)
    requires header.Length == BLOCK
    modifies header
    ensures header[..] == Splice(old(header[..]), 148, SPACES)
    ensures sum == SumBytes(header[..])
  {
    for i := 0 to 8
      invariant header[..] == Splice(old(header[..]), 148, SPACES[..i])
    {
      header[148 + i] := SPACE;
    }
    sum := 0;
    var p := 0;
    while p < BLOCK
      invariant 0 <= p <= BLOCK
      invariant header[..] == Splice(old(header[..]), 148, SPACES)
      invariant sum == SumBytes(header[..p])
    {
      assert header[..p + 1][..p] == header[..p];
      sum := sum + header[p];
      p := p + 1;
    }
    assert header[..BLOCK] == header[..];
  }

  method FillTarHeader(header: array<byte>, fileName: seq<byte>, fileSize: nat)
    requires header.Length == BLOCK && DirentName(fileName) && FileSize(fileSize)
    modifies header
    ensures header[..] == Header(fileName, fileSize)
  {
    FileSizeText(fileSize);
    for i := 0 to BLOCK
      invariant forall j :: 0 <= j < i ==> header[j] == NUL
    {
      header[i] := NUL;
    }
    assert header[..] == Zeros(BLOCK);
    Print(header, 0, fileName);
    Print(header, 100, Padded(384, 7));
    Print(header, 124, Padded(fileSize, 11));
    Print(header, 136, Padded(0, 11));
    header[156] := REGULAR;
    Print(header, 257, USTAR);
    Print(header, 263, [SPACE]);
    assert header[..] == Unsummed(fileName, fileSize);
    var sum := TarCheckSum(header);
    SumText(header[..]);
    Print(header, 148, Padded(sum, 6));
  }
}
