/** A reader of the ustar Interchange Format, written from the standard and not from the writer. */
module TarReader {
  import opened Wrappers
  import opened Octal
  import opened TarHeader

  datatype File = File(name: seq<byte>, data: seq<byte>)

  /** The sum of all header bytes, those of the checksum field counted as spaces. */
  function Checksum(h: seq<byte>, upTo: nat): nat
    requires upTo <= |h|
  {
    if upTo == 0 then 0
    else Checksum(h, upTo - 1) + if 148 <= upTo - 1 < 156 then 32 else h[upTo - 1]
  }

  /** "ustar" and a NUL. */
  predicate MagicOk(h: seq<byte>)
    requires |h| == BLOCK
  {
    h[257..263] == [117, 115, 116, 97, 114, 0]
  }

  /** "00" by the standard; some writers leave a space and a NUL. */
  predicate VersionOk(h: seq<byte>)
    requires |h| == BLOCK
  {
    h[263..265] == [48, 48] || h[263..265] == [32, 0]
  }

  /** Name and size of a regular file, if the header is one. */
  function ReadHeader(h: seq<byte>): Option<(seq<byte>, nat)>
    requires |h| == BLOCK
  {
    var name, prefix := Text(h[..100], {0}), Text(h[345..500], {0});
    if !MagicOk(h) || !VersionOk(h) || (h[156] != 48 && h[156] != 0) then None
    else if ReadOctal(h[148..156]) != Some(Checksum(h, BLOCK)) then None
    else match ReadOctal(h[124..136])
      case None => None
      case Some(size) => Some((if prefix == [] then name else prefix + [47] + name, size))
  }

  function RoundUp(n: nat): (r: nat)
    ensures n <= r < n + BLOCK && r % BLOCK == 0
  {
    var blocks := (n + BLOCK - 1) / BLOCK;
    WholeBlocks(blocks);
    blocks * BLOCK
  }

  lemma WholeBlocks(blocks: nat)
    ensures blocks * BLOCK % BLOCK == 0
  {
  }

  /** The files of an archive. It ends where the bytes end or where a block of zeros stands for a header. */
  function ReadArchive(bytes: seq<byte>): Option<seq<File>> {
    if bytes == [] then Some([])
    else if |bytes| < BLOCK then None
    else if bytes[..BLOCK] == Zeros(BLOCK) then Some([])
    else match ReadHeader(bytes[..BLOCK])
      case None => None
      case Some((name, size)) =>
        var body := bytes[BLOCK..];
        if |body| < RoundUp(size) then None
        else match ReadArchive(body[RoundUp(size)..])
          case None => None
          case Some(rest) => Some([File(name, body[..size])] + rest)
  }

  // ---------- Header round trip ----------

  /** The part of a name its field has room for. */
  function Kept(name: seq<byte>): seq<byte> {
    if |name| <= 100 then name else name[..100]
  }

  lemma UnsummedOthers(name: seq<byte>, size: nat)
    requires DirentName(name) && FileSize(size)
    ensures var h := Unsummed(name, size);
            && h[100..108] == Padded(384, 7) + [0] && h[136..148] == Padded(0, 11) + [0]
            && (forall i :: (108 <= i < 124 || 157 <= i < 257 || 265 <= i < BLOCK) ==> h[i] == if i < |name| then name[i] else 0)
  {
    ShortTexts();
    hide Splice, Padded;
    FileSizeText(size);
  }

  lemma ShortTexts()
    ensures |Padded(384, 7)| == 7 && |Padded(0, 11)| == 11
  {
    DigitCount(384, 7);
    DigitCount(0, 11);
    assert Pow8(3) == 512;
    DigitCount(384, 3);
  }

  /** The mode is 0600 and the time 0; where the program writes no field there is what an overlong name has left, and
      zeros otherwise. */
  lemma OtherFields(name: seq<byte>, size: nat)
    requires DirentName(name) && FileSize(size)
    ensures var h := Header(name, size);
            && ReadOctal(h[100..108]) == Some(6 * 8 * 8) && ReadOctal(h[136..148]) == Some(0)
            && (forall i :: (108 <= i < 124 || 157 <= i < 257 || 265 <= i < BLOCK) ==> h[i] == if i < |name| then name[i] else 0)
  {
    hide Header, Unsummed, Padded, ReadOctal;
    SummedOutside(name, size);
    UnsummedOthers(name, size);
    var h := Header(name, size);
    assert h[100..108] == Unsummed(name, size)[100..108] && h[136..148] == Unsummed(name, size)[136..148];
    ShortTexts();
    EndedText(h[100..108], 384, 7);
    EndedText(h[136..148], 0, 11);
  }

  lemma EndedText(field: seq<byte>, n: nat, width: nat)
    requires |Padded(n, width)| == width >= 1 && field == Padded(n, width) + [0]
    ensures ReadOctal(field) == Some(n)
  {
    hide ReadOctal, Padded;
    ValueOfPadded(n, width);
    assert field == Padded(n, width) + [NUL] + field[width + 1..];
    ReadWhole(Padded(n, width), field);
  }

  /** Outside the checksum field the header is as it was before the checksum was taken. */
  lemma SummedOutside(name: seq<byte>, size: nat)
    requires DirentName(name) && FileSize(size)
    ensures forall i :: 0 <= i < BLOCK && !(148 <= i < 156) ==> Header(name, size)[i] == Unsummed(name, size)[i]
  {
    hide Splice, Unsummed, SumBytes;
    SumText(Splice(Unsummed(name, size), 148, SPACES));
  }

  lemma UnsummedName(name: seq<byte>, size: nat)
    requires DirentName(name) && FileSize(size)
    ensures forall i :: 0 <= i < 100 ==> Unsummed(name, size)[i] == if i < |name| then name[i] else NUL
  {
    hide Splice, Padded;
    FileSizeText(size);
  }

  lemma UnsummedSize(name: seq<byte>, size: nat)
    requires DirentName(name) && FileSize(size)
    ensures |Padded(size, 11)| >= 11
    ensures forall i :: 124 <= i < 136 ==>
              Unsummed(name, size)[i] == if i < 124 + |Padded(size, 11)| then Padded(size, 11)[i - 124] else NUL
  {
    hide Splice, Padded;
    FileSizeText(size);
  }

  lemma UnsummedRest(name: seq<byte>, size: nat)
    requires DirentName(name) && FileSize(size)
    ensures var h := Unsummed(name, size);
            && h[156] == REGULAR && h[262] == NUL && h[263] == SPACE && h[264] == NUL
            && (forall i :: 257 <= i < 262 ==> h[i] == USTAR[i - 257])
            && (forall i :: 345 <= i < 500 ==> h[i] == NUL)
  {
    hide Splice, Padded;
    FileSizeText(size);
  }

  /** The fields of a finished header, byte by byte. */
  lemma Fields(name: seq<byte>, size: nat)
    requires DirentName(name) && FileSize(size)
    ensures var h, digits := Header(name, size), Padded(size, 11);
            && h[..100] == Kept(name) + Zeros(100 - |Kept(name)|)
            && h[124..136] == (if |digits| < 12 then digits + [NUL] else digits[..12])
            && h[156] == 48 && h[257..263] == [117, 115, 116, 97, 114, 0] && h[263..265] == [32, 0]
            && h[345..500] == Zeros(155)
  {
    hide Header, Unsummed, Padded;
    SummedOutside(name, size);
    UnsummedName(name, size);
    UnsummedSize(name, size);
    UnsummedRest(name, size);
  }

  lemma {:induction false} SumIsChecksum(h: seq<byte>, summed: seq<byte>, i: nat)
    requires |h| == |summed| == BLOCK && i <= BLOCK
    requires forall j :: 0 <= j < BLOCK && !(148 <= j < 156) ==> h[j] == summed[j]
    requires forall j :: 148 <= j < 156 ==> summed[j] == SPACE
    ensures Checksum(h, i) == SumBytes(summed[..i])
  {
    if i > 0 {
      SumIsChecksum(h, summed, i - 1);
      assert summed[..i][..i - 1] == summed[..i - 1];
    }
  }

  /** The number in the checksum field is the independently computed checksum. */
  lemma ChecksumConsistent(name: seq<byte>, size: nat)
    requires DirentName(name) && FileSize(size)
    ensures var h := Header(name, size);
            ReadOctal(h[148..156]) == Some(Checksum(h, BLOCK)) && Checksum(h, BLOCK) <= 255 * BLOCK < Pow8(6)
  {
    hide Unsummed;
    var summed := Splice(Unsummed(name, size), 148, SPACES);
    var h := Header(name, size);
    SumText(summed);
    SumBound(summed);
    var digits := Padded(SumBytes(summed), 6);
    SumIsChecksum(h, summed, BLOCK);
    assert summed[..BLOCK] == summed;
    var field := h[148..156];
    assert field == digits + [NUL, SPACE] by { hide Padded, SumBytes; }
    ValueOfPadded(SumBytes(summed), 6);
    assert field[7..] == [SPACE];
    ReadWhole(digits, field);
    assert Pow8(6) == 262144;
  }

  /** The size the field of twelve records: the number itself, or the first twelve of more digits. */
  function Recorded(size: nat): nat {
    if size < Pow8(12) then size
    else
      DigitCount(size, 12);
      assert forall d :: d in Padded(size, 11)[..12] ==> d in Padded(size, 11);
      Value(Padded(size, 11)[..12])
  }

  /** The header round trip, for every entry: no header is refused, the name read back is the name cut to its
      field, and it is name and size that are read back exactly when they fit their fields. */
  lemma HeaderRoundTrip(name: seq<byte>, size: nat)
    requires DirentName(name) && FileSize(size)
    ensures ReadHeader(Header(name, size)) == Some((Kept(name), Recorded(size)))
    ensures ReadHeader(Header(name, size)) == Some((name, size)) <==> |name| <= 100 && size < Pow8(12)
  {
    hide Header, Padded, Checksum, Text, ReadOctal, Recorded;
    var h := Header(name, size);
    Fields(name, size);
    ChecksumConsistent(name, size);
    NameField(h[..100], Kept(name));
    NameField(h[345..500], []);
    SizeField(h[124..136], size);
  }

  lemma NameField(field: seq<byte>, name: seq<byte>)
    requires |name| <= |field| && NUL !in name && field == name + Zeros(|field| - |name|)
    ensures Text(field, {0}) == name
  {
    TextOf(name, Zeros(|field| - |name|), {0});
  }

  lemma SizeField(field: seq<byte>, size: nat)
    requires |field| == 12
    requires field == if |Padded(size, 11)| < 12 then Padded(size, 11) + [NUL] else Padded(size, 11)[..12]
    ensures ReadOctal(field) == Some(Recorded(size))
    ensures Recorded(size) == size <==> size < Pow8(12)
  {
    hide ReadOctal, Pow8, Digits, Value;
    var digits := Padded(size, 11);
    assert field == if |digits| < 12 then digits + [NUL] + field[|digits| + 1..] else digits[..12];
    ReadPadded(size, 11, field);
    DigitCount(size, 12);
    if |digits| >= 12 {
      assert forall d :: d in field ==> d in digits;
      ReadDigits(field);
    }
  }
}
