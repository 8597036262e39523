/** The congestion-control feedback message (section 3.1 of RFC 8888) as this program prints and parses it.
    Both ends store the number of report elements minus one in the num_reports field. */
module Ccfb {
  import opened Options
  import opened Serial

  /** The report block of one stream: one 16-bit element per sequence number from beginSeq on. */
  datatype RawBlock = Block(ssrc: uint32, beginSeq: uint16, reports: seq<uint16>)

  /** A block reports on at least one and at most 65536 numbers. */
  type Block = b: RawBlock | 1 <= |b.reports| <= 65536 witness Block(0, 0, [0])

  datatype Feedback = Feedback(blocks: seq<Block>, timestamp: uint32)

  // ---------- Report elements ----------

  /** R bit, ECN bits and arrival time offset (in 1/1024 s) packed into 16 bits; all zero when not received. */
  function Element(received: bool, ecn: nat, offset: nat): uint16
    requires ecn < 4 && offset < 8192
  {
    if received then 32768 + ecn * 8192 + offset else 0
  }

  predicate IsReceived(w: uint16) { w / 32768 == 1 }

  function EcnOf(w: uint16): nat { w % 32768 / 8192 }

  function OffsetOf(w: uint16): nat { w % 8192 }

  lemma ElementRoundTrip(received: bool, ecn: nat, offset: nat)
    requires ecn < 4 && offset < 8192
    ensures var w := Element(received, ecn, offset);
            && (IsReceived(w) <==> received)
            && (received ==> EcnOf(w) == ecn && OffsetOf(w) == offset)
  {
  }

  // ---------- Octets in network order ----------

  function Enc16(x: uint16): (b: seq<byte>)
    ensures |b| == 2
  {
    [x / 256, x % 256]
  }

  function Enc32(x: uint32): (b: seq<byte>)
    ensures |b| == 4
  {
    Enc16(x / 65536) + Enc16(x % 65536)
  }

  function At16(b: seq<byte>, i: nat): uint16
    requires i + 2 <= |b|
  {
    b[i] as int * 256 + b[i + 1]
  }

  function At32(b: seq<byte>, i: nat): uint32
    requires i + 4 <= |b|
  {
    At16(b, i) as int * 65536 + At16(b, i + 2)
  }

  lemma SubSlice<T>(b: seq<T>, ptr: nat, s: seq<T>, i: nat, j: nat)
    requires ptr + |s| <= |b| && b[ptr..ptr + |s|] == s
    requires i <= j <= |s|
    ensures b[ptr + i..ptr + j] == s[i..j]
  {
    forall k | 0 <= k < j - i
      ensures b[ptr + i..ptr + j][k] == s[i..j][k]
    {
      assert b[ptr + i + k] == b[ptr..ptr + |s|][i + k];
    }
  }

  lemma Enc16RoundTrip(x: uint16, b: seq<byte>, i: nat)
    requires i + 2 <= |b| && b[i..i + 2] == Enc16(x)
    ensures At16(b, i) == x
  {
    assert b[i] == b[i..i + 2][0] && b[i + 1] == b[i..i + 2][1];
  }

  lemma Enc32RoundTrip(x: uint32, b: seq<byte>, i: nat)
    requires i + 4 <= |b| && b[i..i + 4] == Enc32(x)
    ensures At32(b, i) == x
  {
    assert b[i..i + 2] == b[i..i + 4][..2] == Enc16(x / 65536);
    assert b[i + 2..i + 4] == b[i..i + 4][2..] == Enc16(x % 65536);
    Enc16RoundTrip(x / 65536, b, i);
    Enc16RoundTrip(x % 65536, b, i + 2);
  }

  function EncWords(w: seq<uint16>): (b: seq<byte>)
    ensures |b| == 2 * |w|
  {
    if w == [] then [] else EncWords(w[..|w| - 1]) + Enc16(w[|w| - 1])
  }

  lemma EncWordsAppend(w: seq<uint16>, x: uint16)
    ensures EncWords(w + [x]) == EncWords(w) + Enc16(x)
  {
    assert (w + [x])[..|w|] == w;
  }

  function WordsAt(b: seq<byte>, i: nat, n: nat): (w: seq<uint16>)
    requires i + 2 * n <= |b|
    ensures |w| == n
  {
    if n == 0 then [] else WordsAt(b, i, n - 1) + [At16(b, i + 2 * (n - 1))]
  }

  lemma {:induction false} WordsRoundTrip(w: seq<uint16>, b: seq<byte>, i: nat)
    requires i + 2 * |w| <= |b| && b[i..i + 2 * |w|] == EncWords(w)
    ensures WordsAt(b, i, |w|) == w
  {
    hide At16, Enc16, EncWords;
    if w != [] {
      var n := |w| - 1;
      LastWord(w);
      SubSlice(b, i, EncWords(w), 0, 2 * n);
      SubSlice(b, i, EncWords(w), 2 * n, 2 * n + 2);
      assert EncWords(w)[0..2 * n] == EncWords(w)[..2 * n] && EncWords(w)[2 * n..2 * n + 2] == EncWords(w)[2 * n..];
      WordsRoundTrip(w[..n], b, i);
      Enc16RoundTrip(w[n], b, i + 2 * n);
      assert w == w[..n] + [w[n]];
    }
  }

  lemma LastWord(w: seq<uint16>)
    requires w != []
    ensures var n := |w| - 1; EncWords(w)[..2 * n] == EncWords(w[..n]) && EncWords(w)[2 * n..] == Enc16(w[n])
  {
    hide Enc16;
  }


  // ---------- Printing ----------

  function Padding(n: nat): (b: seq<byte>)
    ensures |b| == 4 * ((n + 1) / 2) - 2 * n
  {
    if n % 2 == 1 then [0, 0] else []
  }

  /** Size of a block of n elements, in 32-bit words. */
  function BlockWords(n: nat): nat { 2 + (n + 1) / 2 }

  function BlockSize(n: nat): nat { 4 * BlockWords(n) }

  function PrintBlock(block: Block): (b: seq<byte>)
    ensures |b| == BlockSize(|block.reports|)
  {
    Enc32(block.ssrc) + Enc16(block.beginSeq) + Enc16(|block.reports| - 1) + EncWords(block.reports)
    + Padding(|block.reports|)
  }

  /** The octets of each block. */
  function Printed(blocks: seq<Block>): (parts: seq<seq<byte>>)
    ensures |parts| == |blocks|
    ensures forall k :: 0 <= k < |blocks| ==> parts[k] == PrintBlock(blocks[k])
  {
    seq(|blocks|, k requires 0 <= k < |blocks| => PrintBlock(blocks[k]))
  }

  function Flatten(parts: seq<seq<byte>>): seq<byte> {
    if parts == [] then [] else parts[0] + Flatten(parts[1..])
  }

  function PrintBlocks(blocks: seq<Block>): seq<byte> { Flatten(Printed(blocks)) }

  /** Size of a sequence of blocks, in 32-bit words. */
  function Words(blocks: seq<Block>): nat {
    if blocks == [] then 0 else BlockWords(|blocks[0].reports|) + Words(blocks[1..])
  }

  lemma {:induction false} FlattenSize(parts: seq<seq<byte>>, blocks: seq<Block>)
    requires |parts| == |blocks|
    requires forall k :: 0 <= k < |parts| ==> |parts[k]| == BlockSize(|blocks[k].reports|)
    ensures |Flatten(parts)| == 4 * Words(blocks)
  {
    if parts != [] {
      FlattenSize(parts[1..], blocks[1..]);
    }
  }

  lemma {:induction false} FlattenAppend(parts: seq<seq<byte>>, part: seq<byte>)
    ensures Flatten(parts + [part]) == Flatten(parts) + part
  {
    if parts == [] {
      assert [part][1..] == [];
    } else {
      FlattenAppend(parts[1..], part);
      assert (parts + [part])[1..] == parts[1..] + [part];
    }
  }

  lemma PrintSize(blocks: seq<Block>)
    ensures |PrintBlocks(blocks)| == 4 * Words(blocks)
  {
    FlattenSize(Printed(blocks), blocks);
  }

  lemma PrintNothing()
    ensures PrintBlocks([]) == []
  {
  }

  lemma PrintBlocksAppend(blocks: seq<Block>, block: Block)
    ensures PrintBlocks(blocks + [block]) == PrintBlocks(blocks) + PrintBlock(block)
  {
    assert Printed(blocks + [block]) == Printed(blocks) + [PrintBlock(block)];
    FlattenAppend(Printed(blocks), PrintBlock(block));
  }

  /** The whole message: first octets 0x8B and 205, length in 32-bit words minus one, reporter, blocks, timestamp. */
  function Print(reporter: uint32, m: Feedback): (b: seq<byte>)
    ensures |b| == 12 + |PrintBlocks(m.blocks)|
  {
    var body := PrintBlocks(m.blocks);
    [139, 205] + Enc16(Wrap16((12 + |body|) / 4 - 1)) + Enc32(reporter) + body + Enc32(m.timestamp)
  }

  /** Where the fields of a block are, as octets: the source, the first number, the number of elements less one, each in
      network order; the elements, with R bit, ECN bits and offset from the highest bit down; and zeros up to a whole word. */
  lemma BlockFormat(block: Block)
    ensures var (b, n) := (PrintBlock(block), |block.reports|);
            && |b| == 8 + 2 * n + (if n % 2 == 1 then 2 else 0)
            && block.ssrc == ((b[0] as int * 256 + b[1]) * 256 + b[2]) * 256 + b[3]
            && block.beginSeq == b[4] as int * 256 + b[5]
            && n - 1 == b[6] as int * 256 + b[7]
            && (forall k :: 0 <= k < n ==> block.reports[k] == b[8 + 2 * k] as int * 256 + b[9 + 2 * k])
            && (n % 2 == 1 ==> b[8 + 2 * n] == b[9 + 2 * n] == 0)
  {
    hide EncWords, Padding;
    var (b, n) := (PrintBlock(block), |block.reports|);
    var w := EncWords(block.reports);
    forall k | 0 <= k < n
      ensures block.reports[k] == b[8 + 2 * k] as int * 256 + b[9 + 2 * k]
    {
      assert b[8 + 2 * k] == w[2 * k] && b[9 + 2 * k] == w[2 * k + 1];
      WordOctets(block.reports, k);
    }
    PaddingIs(n);
  }

  lemma PaddingIs(n: nat)
    ensures |Padding(n)| == (if n % 2 == 1 then 2 else 0) && forall i :: 0 <= i < |Padding(n)| ==> Padding(n)[i] == 0
  {
  }

  lemma {:induction false} WordOctets(w: seq<uint16>, k: nat)
    requires k < |w|
    ensures w[k] == EncWords(w)[2 * k] as int * 256 + EncWords(w)[2 * k + 1]
  {
    if k < |w| - 1 {
      WordOctets(w[..|w| - 1], k);
    }
  }

  lemma ElementFormat(ecn: nat, offset: nat)
    requires ecn < 4 && offset < 8192
    ensures Element(true, ecn, offset) == (4 + ecn) * 8192 + offset && Element(false, ecn, offset) == 0
  {
  }

  /** Where the fields of a message are: version 2, no padding, format 11, packet type 205; its length in 32-bit words less
      one; the reporter; the blocks; and the time of the report in the last four octets. */
  lemma MessageFormat(reporter: uint32, m: Feedback)
    requires Words(m.blocks) <= 65533
    ensures var b := Print(reporter, m);
            && |b| >= 12 && b[0] == 2 * 64 + 11 && b[1] == 205
            && 4 * (b[2] as int * 256 + b[3] + 1) == |b|
            && reporter == ((b[4] as int * 256 + b[5]) * 256 + b[6]) * 256 + b[7]
            && b[8..|b| - 4] == PrintBlocks(m.blocks)
            && m.timestamp
               == ((b[|b| - 4] as int * 256 + b[|b| - 3]) * 256 + b[|b| - 2]) * 256 + b[|b| - 1]
  {
    hide PrintBlocks, Words;
    PrintSize(m.blocks);
  }

  // ---------- Parsing ----------

  /** The block at offset ptr, None when it does not end by offset end. */
  function ParseBlock(b: seq<byte>, ptr: nat, end: nat): (r: Option<Block>)
    requires end <= |b|
    ensures r.Some? ==> ptr + BlockSize(|r.value.reports|) <= end
  {
    if ptr + 8 > end then None
    else
      var n := At16(b, ptr + 6) as int + 1;
      if ptr + BlockSize(n) > end then None
      else Some(Block(At32(b, ptr), At16(b, ptr + 4), WordsAt(b, ptr + 8, n)))
  }

  /** The blocks between offset ptr and end; None when the reader would step past end. */
  function ParseBlocks(b: seq<byte>, ptr: nat, end: nat): Option<seq<Block>>
    requires end <= |b|
    decreases end - ptr
  {
    if ptr == end then Some([])
    else
      match ParseBlock(b, ptr, end)
      case None => None
      case Some(block) =>
        match ParseBlocks(b, ptr + BlockSize(|block.reports|), end)
        case None => None
        case Some(rest) => Some([block] + rest)
  }

  /** The parse of a datagram, None when the reader would leave it. */
  function Parse(b: seq<byte>): Option<Feedback> {
    if |b| < 12 then None
    else
      var length := At16(b, 2);
      if 4 * length + 4 > |b| then None
      else
        match ParseBlocks(b, 8, |b| - 4)
        case None => None
        case Some(blocks) => Some(Feedback(blocks, At32(b, 4 * length)))
  }

  lemma BlockRoundTrip(block: Block, b: seq<byte>, ptr: nat, end: nat)
    requires ptr + BlockSize(|block.reports|) <= end <= |b|
    requires b[ptr..ptr + BlockSize(|block.reports|)] == PrintBlock(block)
    ensures ParseBlock(b, ptr, end) == Some(block)
  {
    BlockFields(block, b, ptr);
    hide At16, At32, WordsAt, PrintBlock;
  }

  lemma BlockFields(block: Block, b: seq<byte>, ptr: nat)
    requires ptr + BlockSize(|block.reports|) <= |b|
    requires b[ptr..ptr + BlockSize(|block.reports|)] == PrintBlock(block)
    ensures At32(b, ptr) == block.ssrc && At16(b, ptr + 4) == block.beginSeq && At16(b, ptr + 6) == |block.reports| - 1
    ensures WordsAt(b, ptr + 8, |block.reports|) == block.reports
  {
    hide At16, At32, WordsAt, EncWords, Enc16, Enc32, Padding;
    var n := |block.reports|;
    var s := PrintBlock(block);
    SubSlice(b, ptr, s, 0, 4);
    SubSlice(b, ptr, s, 4, 6);
    SubSlice(b, ptr, s, 6, 8);
    SubSlice(b, ptr, s, 8, 8 + 2 * n);
    assert s[..4] == Enc32(block.ssrc);
    assert s[4..6] == Enc16(block.beginSeq);
    assert s[6..8] == Enc16(n - 1);
    assert s[8..8 + 2 * n] == EncWords(block.reports);
    Enc32RoundTrip(block.ssrc, b, ptr);
    Enc16RoundTrip(block.beginSeq, b, ptr + 4);
    Enc16RoundTrip(n - 1, b, ptr + 6);
    WordsRoundTrip(block.reports, b, ptr + 8);
  }

  lemma ParseStep(b: seq<byte>, ptr: nat, next: nat, end: nat, block: Block, rest: seq<Block>)
    requires ptr < next <= end <= |b| && ParseBlock(b, ptr, end) == Some(block)
    requires next == ptr + BlockSize(|block.reports|)
    requires ParseBlocks(b, next, end) == Some(rest)
    ensures ParseBlocks(b, ptr, end) == Some([block] + rest)
  {
  }

  lemma FirstBlock(blocks: seq<Block>, b: seq<byte>, ptr: nat, end: nat)
    requires blocks != [] && ptr <= end <= |b| && b[ptr..end] == PrintBlocks(blocks)
    ensures var next := ptr + BlockSize(|blocks[0].reports|);
            && ptr < next <= end
            && ParseBlock(b, ptr, end) == Some(blocks[0])
            && b[next..end] == PrintBlocks(blocks[1..])
  {
    var s, head := b[ptr..end], PrintBlock(blocks[0]);
    var n := |head|;
    assert Printed(blocks)[1..] == Printed(blocks[1..]);
    assert s == head + PrintBlocks(blocks[1..]);
    SubSlice(b, ptr, s, 0, n);
    SubSlice(b, ptr, s, n, |s|);
    assert s[0..n] == head && s[n..|s|] == PrintBlocks(blocks[1..]);
    BlockRoundTrip(blocks[0], b, ptr, end);
  }

  lemma {:induction false} BlocksRoundTrip(blocks: seq<Block>, b: seq<byte>, ptr: nat, end: nat)
    requires ptr <= end <= |b| && b[ptr..end] == PrintBlocks(blocks)
    ensures ParseBlocks(b, ptr, end) == Some(blocks)
  {
    if blocks != [] {
      var next := ptr + BlockSize(|blocks[0].reports|);
      FirstBlock(blocks, b, ptr, end);
      BlocksRoundTrip(blocks[1..], b, next, end);
      ParseStep(b, ptr, next, end, blocks[0], blocks[1..]);
      assert [blocks[0]] + blocks[1..] == blocks;
    }
  }

  /** Where a printed message keeps its fields. */
  lemma Layout(reporter: uint32, m: Feedback)
    requires Words(m.blocks) <= 65533
    ensures var b, words := Print(reporter, m), Words(m.blocks) + 2;
            && |b| == 4 * words + 4
            && At16(b, 2) == words
            && b[8..4 * words] == PrintBlocks(m.blocks)
            && At32(b, 4 * words) == m.timestamp
  {
    hide PrintBlocks, Words, At16, At32, Enc16, Enc32;
    var b, body, words := Print(reporter, m), PrintBlocks(m.blocks), Words(m.blocks) + 2;
    PrintSize(m.blocks);
    assert |body| == 4 * words - 8;
    assert Wrap16((12 + |body|) / 4 - 1) == words;
    var head := [139, 205] + Enc16(words) + Enc32(reporter);
    assert b == head + body + Enc32(m.timestamp);
    assert b[2..4] == Enc16(words);
    Enc16RoundTrip(words, b, 2);
    assert b[8..4 * words] == body;
    assert b[4 * words..4 * words + 4] == Enc32(m.timestamp);
    Enc32RoundTrip(m.timestamp, b, 4 * words);
  }

  /** Feedback round trip: parsing a printed message finds the timestamp and exactly the printed blocks, and the
      reader stops exactly four octets before the end. */
  lemma RoundTrip(reporter: uint32, m: Feedback)
    requires Words(m.blocks) <= 65533
    ensures Parse(Print(reporter, m)) == Some(m)
    ensures |Print(reporter, m)| == 4 * (Words(m.blocks) + 3)
  {
    hide Print, PrintBlocks, ParseBlocks, Words, At16, At32;
    Layout(reporter, m);
    BlocksRoundTrip(m.blocks, Print(reporter, m), 8, 4 * (Words(m.blocks) + 2));
  }

  /** Two different messages never look the same on the wire. */
  lemma PrintInjective(reporter: uint32, m: Feedback, reporter': uint32, m': Feedback)
    requires Words(m.blocks) <= 65533 && Words(m'.blocks) <= 65533
    requires Print(reporter, m) == Print(reporter', m')
    ensures m == m'
  {
    hide Print, Parse;
    RoundTrip(reporter, m);
    RoundTrip(reporter', m');
  }
}
