/** The header text of an archive as JSON, and its length. */
module AsarText {
  import opened Basics
  import opened AsarPaths
  import opened AsarTree
  import opened AsarCollect
  import opened AsarLayout
  import opened AsarArchive
  import opened AsarWrite
  import opened AsarRoundTrip

  /** `AsarLimits::initial`, the only limits the source constructs. */
  const INITIAL_LIMITS := AsarLimits(
    1024 * 1024 * 1024, 16 * 1024 * 1024, 100_000, 512 * 1024 * 1024, 1024 * 1024 * 1024, 4_096, 128)

  function Times(n: nat, k: nat): nat {
    if n == 0 then 0 else k + Times(n - 1, k)
  }

  lemma {:induction false} TimesBound(n: nat, m: nat, k: nat)
    requires n <= m
    ensures Times(n, k) <= m * k
  {
    if n > 0 {
      TimesBound(n - 1, m - 1, k);
      assert m * k == (m - 1) * k + k;
    }
  }

  // ---- The text ----------------------------------------------------------------------------------

  function Quoted(t: Text): Bytes {
    [0x22] + t + [0x22]
  }

  function BlockList(blocks: seq<Text>): Bytes {
    if blocks == [] then []
    else if |blocks| == 1 then Quoted(blocks[0])
    else Quoted(blocks[0]) + Ascii(",") + BlockList(blocks[1..])
  }

  /** The compact JSON of a header tree as the writer emits it. Valid names need no escaping. */
  function NodeText(n: Node): Bytes {
    match n
    case Directory(files) => Ascii("{\"files\":{") + MembersText(files) + Ascii("}}")
    case FileNode(e) =>
      Ascii("{\"size\":") + Decimal(e.size)
      + (if e.offset.Some? then Ascii(",\"offset\":") + Quoted(e.offset.value) else [])
      + (if e.executable then Ascii(",\"executable\":true") else [])
      + (if e.integrity.Some? then
           Ascii(",\"integrity\":{\"algorithm\":") + Quoted(e.integrity.value.algorithm)
           + Ascii(",\"hash\":") + Quoted(e.integrity.value.hash)
           + Ascii(",\"blockSize\":") + Decimal(e.integrity.value.blockSize)
           + Ascii(",\"blocks\":[") + BlockList(e.integrity.value.blocks) + Ascii("]}")
         else [])
      + Ascii("}")
    case LinkNode(target) => Ascii("{\"link\":") + Quoted(target) + Ascii("}")
  }

  function MembersText(f: Forest): Bytes {
    if f.Nil? then []
    else Quoted(f.name) + Ascii(":") + NodeText(f.node)
         + if f.rest.Nil? then [] else Ascii(",") + MembersText(f.rest)
  }

  /** The codec prints this tree as JSON and reads its text back; hashes print as 64 digits. */
  ghost predicate Prints(codec: Codec, f: Forest) {
    && codec.encode(f) == NodeText(Directory(f)) && codec.decode(codec.encode(f)) == Some(Directory(f))
    && forall b :: |codec.hex(b)| == 64
  }

  // ---- Lengths -----------------------------------------------------------------------------------

  lemma {:induction false} OneMoreDigit(n: nat, tenth: nat, k: nat)
    requires tenth == n / 10 > 0 && |Decimal(tenth)| == k
    ensures |Decimal(n)| == k + 1
  {
  }

  lemma {:induction false} BlockSizeDigits(n: nat)
    requires n == INTEGRITY_BLOCK_SIZE
    ensures |Decimal(n)| == 7
  {
    var a, b, c := n / 10, n / 100, n / 1_000;
    var d, e, f := n / 10_000, n / 100_000, n / 1_000_000;
    assert |Decimal(f)| == 1;
    OneMoreDigit(e, f, 1);
    OneMoreDigit(d, e, 2);
    OneMoreDigit(c, d, 3);
    OneMoreDigit(b, c, 4);
    OneMoreDigit(a, b, 5);
    OneMoreDigit(n, a, 6);
  }

  /** The length of a packed file's entry, up to its numbers and hashes. */
  lemma {:induction false} FileTextLength(e: FileEntry)
    requires e.offset.Some? && e.integrity.Some? && !e.executable
    ensures var i := e.integrity.value;
            |NodeText(FileNode(e))|
            == 85 + |Decimal(e.size)| + |e.offset.value| + |i.algorithm| + |i.hash| + |Decimal(i.blockSize)|
               + |BlockList(i.blocks)|
  {
  }

  /** One more content byte adds one block hash to the header text and nothing else. */
  lemma {:induction false} OutputTextLength(x: byte, hex: Bytes -> Text)
    requires forall b :: |hex(b)| == 64
    ensures var empty, one := OutputFile(PackedFile([], false), 0, hex), OutputFile(PackedFile([x], false), 0, hex);
            |NodeText(FileNode(empty))| == 164 && |NodeText(FileNode(one))| == 230
  {
    var empty, one := OutputFile(PackedFile([], false), 0, hex), OutputFile(PackedFile([x], false), 0, hex);
    FileTextLength(empty);
    FileTextLength(one);
    BlockSizeDigits(INTEGRITY_BLOCK_SIZE);
    assert |Decimal(0)| == 1 && |Decimal(1)| == 1;
    assert Blocks([], hex) == [] && Blocks([x], hex) == [hex([x])];
  }

  lemma {:induction false} OutputPacks(file: PackedFile, hex: Bytes -> Text, l: AsarLimits)
    requires |file.bytes| <= l.maxFileBytes
    ensures Packable(OutputFile(file, 0, hex), l)
  {
    OffsetRoundTrip(0);
  }

  /** An archive whose tree is known is written as its text and body, and reads back iff the padded text fits. */
  lemma {:induction false} KnownRoundTrip(files: Files, shape: Forest, tree: Forest, body: Bytes, l: AsarLimits,
          codec: Codec)
    requires ArchiveInv(files, shape, l) && ValidLimits(l)
    requires Build(InPathOrder(files.Keys), files, codec.hex) == Some(Built(tree, body)) && Prints(codec, tree)
    requires |body| <= 1 <= l.maxTotalFileBytes && |NodeText(Directory(tree))| <= l.maxHeaderBytes <= 0x1000_0000
    requires l.maxHeaderBytes + 20 <= l.maxArchiveBytes
    ensures var text := NodeText(Directory(tree));
            && Serialize(files, l, codec) == Ok(Framed(text, body))
            && ParseArchive(Framed(text, body), l, codec)
               == if 16 + Padded(|text|) <= l.maxHeaderBytes then Ok(files) else Err(HeaderTooLarge)
  {
    assert Survives(files, codec);
    RoundTrip(files, shape, l, codec);
  }

  // ---- A codec -----------------------------------------------------------------------------------

  function ZeroHex(b: Bytes): Text {
    seq(64, _ => 0x30)
  }

  function Print(f: Forest): Bytes {
    NodeText(Directory(f))
  }

  function Recognise(trees: seq<Forest>, text: Bytes): Option<Node> {
    if trees == [] then None
    else if text == Print(trees[0]) then Some(Directory(trees[0]))
    else Recognise(trees[1..], text)
  }

  /** A codec that prints every tree and reads back the given ones. */
  function SampleCodec(trees: seq<Forest>): Codec {
    Codec(b => Recognise(trees, b), Print, ZeroHex)
  }

  /** Two trees whose texts differ in length can be printed and read back by one codec. */
  lemma {:induction false} SampleCodecPrints(a: Forest, b: Forest)
    requires |Print(a)| != |Print(b)|
    ensures Prints(SampleCodec([a, b]), a) && Prints(SampleCodec([a, b]), b)
  {
    assert [a, b][1..] == [b];
    assert Recognise([a, b], Print(b)) == Recognise([b], Print(b));
  }

  lemma {:induction false} RecogniseEither(a: Forest, b: Forest, text: Bytes)
    ensures Recognise([a, b], text) in [None, Some(Directory(a)), Some(Directory(b))]
  {
    assert [a, b][1..] == [b] && [b][1..] == [];
    assert Recognise([], text) == None;
    assert Recognise([b], text) == if text == Print(b) then Some(Directory(b)) else None;
  }
}
