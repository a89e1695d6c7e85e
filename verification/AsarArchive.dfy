/** Reading and deterministic writing of whole archives. */
module AsarArchive {
  import opened Basics
  import opened AsarTree
  import opened AsarCollect
  import opened AsarLayout

  const ASAR_MAGIC: nat := 4
  const U32_MAX: nat := 0xFFFF_FFFF

  type Files = map<Text, PackedFile>

  // ---- Framing -----------------------------------------------------------------------------

  function LittleEndian(n: nat): (b: Bytes)
    requires n <= U32_MAX
    ensures |b| == 4
  {
    [n % 256, n / 256 % 256, n / 65536 % 256, n / 16777216]
  }

  function ReadU32(b: Bytes, at: nat): nat
    requires at + 4 <= |b|
  {
    var b0: int, b1: int, b2: int, b3: int := b[at], b[at + 1], b[at + 2], b[at + 3];
    b0 + 256 * b1 + 65536 * b2 + 16777216 * b3
  }

  lemma {:induction false} ReadBack(n: nat)
    requires n <= U32_MAX
    ensures ReadU32(LittleEndian(n), 0) == n
  {
    Digits(n);
  }

  lemma {:induction false} FourWords(a: Bytes, b: Bytes, c: Bytes, d: Bytes, tail: Bytes)
    requires |a| == |b| == |c| == |d| == 4
    ensures var all := a + b + c + d + tail;
            && ReadU32(all, 0) == ReadU32(a, 0) && ReadU32(all, 4) == ReadU32(b, 0)
            && ReadU32(all, 8) == ReadU32(c, 0) && ReadU32(all, 12) == ReadU32(d, 0)
            && all[16..] == tail
  {
  }

  lemma {:induction false} Digits(n: nat)
    ensures n == n % 256 + 256 * (n / 256 % 256) + 65536 * (n / 65536 % 256) + 16777216 * (n / 16777216)
  {
    assert n / 65536 == n / 256 / 256 && n / 16777216 == n / 65536 / 256;
  }

  function Padded(n: nat): (p: nat)
    ensures n <= p < n + 4 && p % 4 == 0
  {
    (n + 3) / 4 * 4
  }

  function Zeros(n: nat): (b: Bytes)
    ensures |b| == n && forall i :: 0 <= i < n ==> b[i] == 0
  {
    seq(n, _ => 0)
  }

  datatype Header = Header(root: Forest, dataStart: nat)

  function ParseHeader(bytes: Bytes, l: AsarLimits, codec: Codec): Result<Header, AsarError> {
    if |bytes| < 16 then Err(InvalidHeader)
    else
      var outer, inner, json := ReadU32(bytes, 4), ReadU32(bytes, 8), ReadU32(bytes, 12);
      if ReadU32(bytes, 0) != ASAR_MAGIC || outer != (if inner + 4 > U32_MAX then U32_MAX else inner + 4)
      then Err(InvalidHeader)
      else if inner < 4 || (inner - 4) % 4 != 0 || json > inner - 4 then Err(InvalidHeader)
      else
        var dataStart := 16 + (inner - 4);
        if dataStart > |bytes| || dataStart > l.maxHeaderBytes then Err(HeaderTooLarge)
        else if !(forall i :: 16 + json <= i < dataStart ==> bytes[i] == 0) then Err(InvalidHeader)
        else
          var root := codec.decode(bytes[16..16 + json]);
          if root.None? then Err(InvalidHeaderJson)
          else if !root.value.Directory? then Err(InvalidHeader)
          else Ok(Header(root.value.files, dataStart))
  }

  /** The bytes of an archive with the given header text and body. */
  function Framed(json: Bytes, body: Bytes): Bytes
    requires Padded(|json|) + 8 <= U32_MAX
  {
    var padded := Padded(|json|);
    LittleEndian(ASAR_MAGIC) + LittleEndian(padded + 8) + LittleEndian(padded + 4) + LittleEndian(|json|)
    + json + Zeros(padded - |json|) + body
  }

  lemma {:induction false} FramedFields(json: Bytes, body: Bytes)
    requires Padded(|json|) + 8 <= U32_MAX
    ensures var b, padded := Framed(json, body), Padded(|json|);
            && |b| == 16 + padded + |body|
            && ReadU32(b, 0) == ASAR_MAGIC && ReadU32(b, 4) == padded + 8 && ReadU32(b, 8) == padded + 4
            && ReadU32(b, 12) == |json|
            && b[16..16 + |json|] == json && b[16 + padded..] == body
            && (forall i :: 16 + |json| <= i < 16 + padded ==> b[i] == 0)
  {
    var padded := Padded(|json|);
    var m, o := LittleEndian(ASAR_MAGIC), LittleEndian(padded + 8);
    var i, j := LittleEndian(padded + 4), LittleEndian(|json|);
    var tail := json + Zeros(padded - |json|) + body;
    assert Framed(json, body) == m + o + i + j + tail;
    FourWords(m, o, i, j, tail);
    ReadBack(ASAR_MAGIC);
    ReadBack(padded + 8);
    ReadBack(padded + 4);
    ReadBack(|json|);
    TailFields(m + o + i + j, json, Zeros(padded - |json|), body);
  }

  lemma {:induction false} TailFields(head: Bytes, json: Bytes, zeros: Bytes, body: Bytes)
    requires |head| == 16 && forall i :: 0 <= i < |zeros| ==> zeros[i] == 0
    ensures var b, n := head + (json + zeros + body), 16 + |json|;
            && b[16..n] == json && b[n + |zeros|..] == body
            && (forall i :: n <= i < n + |zeros| ==> b[i] == 0)
  {
    var b, n := head + (json + zeros + body), 16 + |json|;
    forall i | n <= i < n + |zeros| ensures b[i] == 0 { assert b[i] == zeros[i - n]; }
  }

  /** A framed header is read back exactly when it fits the reader's bound on its padded size. */
  lemma {:induction false} HeaderRoundTrip(json: Bytes, body: Bytes, root: Forest, l: AsarLimits, codec: Codec)
    requires Padded(|json|) + 8 <= U32_MAX && codec.decode(json) == Some(Directory(root))
    ensures ParseHeader(Framed(json, body), l, codec)
            == if 16 + Padded(|json|) <= l.maxHeaderBytes then Ok(Header(root, 16 + Padded(|json|)))
               else Err(HeaderTooLarge)
  {
    FramedFields(json, body);
  }

  // ---- Parsing -----------------------------------------------------------------------------

  function ParseArchive(bytes: Bytes, l: AsarLimits, codec: Codec): Result<Files, AsarError> {
    if |bytes| > l.maxArchiveBytes then Err(ArchiveTooLarge)
    else
      var header := ParseHeader(bytes, l, codec);
      if header.Err? then Err(header.error)
      else
        var collected := Collect(header.value.root, [], 0, INITIAL, l);
        if collected.Err? then Err(collected.error)
        else Finish(collected.value.files, bytes[header.value.dataStart..], codec.hex)
  }

  /** What is known of an archive that was read: `shape` is the directory tree it came from. */
  ghost predicate ArchiveInv(files: Files, shape: Forest, l: AsarLimits) {
    && Ordered(shape)
    && Collect(shape, [], 0, INITIAL, l).Ok?
    && files.Keys == Collect(shape, [], 0, INITIAL, l).value.files.Keys
    && (forall p :: p in files ==> |files[p].bytes| <= l.maxFileBytes)
  }
}
