/** The streaming bitrot format: shards of data, each preceded by its hash. */
module Bitrot {
  import opened Common

  const HASH_SIZE: nat := 32

  /** A hash function with a result of HASH_SIZE bytes. */
  type Hash = h: HashFunction | h.FixedLength() witness HashFunction(p => seq(HASH_SIZE, _ => 0))

  datatype HashFunction = HashFunction(digest: seq<byte> -> seq<byte>) {
    ghost predicate FixedLength() {
      forall p :: |digest(p)| == HASH_SIZE
    }
  }

  function Sum(h: Hash, p: seq<byte>): (sum: seq<byte>)
    ensures |sum| == HASH_SIZE
  {
    h.digest(p)
  }

  datatype Algorithm = SHA256 | BLAKE2b512 | HighwayHash256 | HighwayHash256S | UnknownAlgorithm

  function DigestSize(algo: Algorithm): nat {
    match algo
    case SHA256 => 32
    case HighwayHash256 => 32
    case HighwayHash256S => 32
    case BLAKE2b512 => 64
    case UnknownAlgorithm => 0
  }

  // ---------------------------------------------------------------- sizes

  /** Integer division that truncates toward zero. */
  function TruncDiv(n: int, d: int): int
    requires d > 0
  {
    if n >= 0 then n / d else -((-n) / d)
  }

  function CeilFrac(numerator: int, denominator: int): int {
    if denominator == 0 then 0 else
      var n := if denominator < 0 then -numerator else numerator;
      var d := if denominator < 0 then -denominator else denominator;
      TruncDiv(n, d) + if n > 0 && n % d != 0 then 1 else 0
  }

  /** Size of a file with bitrot protection. */
  function ShardFileSize(size: int, shardSize: int, algo: Algorithm): int {
    if algo != HighwayHash256S then size else CeilFrac(size, shardSize) * DigestSize(algo) + size
  }

  /** The file size the streaming writer announces; -1 for a stream of unknown length. */
  function WriterFileSize(length: int, shardSize: int): int {
    if length != -1 then CeilFrac(length, shardSize) * HASH_SIZE + length else -1
  }

  /** The stream offset a reader of the first `tillOffset` data bytes reads up to. */
  function ReaderTill(tillOffset: int, shardSize: int): int {
    CeilFrac(tillOffset, shardSize) * HASH_SIZE + tillOffset
  }

  /** The stream offset of data offset `offset`. */
  function StreamOffset(offset: nat, shardSize: int): nat
    requires shardSize > 0
  {
    (offset / shardSize) * HASH_SIZE + offset
  }

  function Min(a: nat, b: nat): nat {
    if a < b then a else b
  }

  lemma DivStep(p: nat, d: nat)
    requires d > 0 && p >= d
    ensures p / d == 1 + (p - d) / d && p % d == (p - d) % d
  {
    var q, r := (p - d) / d, (p - d) % d;
    assert p == d * (q + 1) + r;
    DivUnique(p, d, q + 1, r);
  }

  lemma DivUnique(p: nat, d: nat, q: nat, r: nat)
    requires d > 0 && p == d * q + r && r < d
    ensures p / d == q && p % d == r
  {
    var q', r' := p / d, p % d;
    assert d * q + r == d * q' + r';
    assert q < q' ==> d * q' >= d * (q + 1);
    assert q' < q ==> d * q >= d * (q' + 1);
  }

  /** For all numerators and denominators the quotient is rounded up; nothing divided by zero is zero. */
  lemma CeilFracRoundsUp(n: int, d: int)
    ensures d == 0 ==> CeilFrac(n, d) == 0
    ensures d > 0 ==> CeilFrac(n, d) * d - d < n <= CeilFrac(n, d) * d
    ensures d < 0 ==> CeilFrac(n, d) * d <= n < CeilFrac(n, d) * d - d
  {
  }

  /** A further shard adds one to the count. */
  lemma CeilStep(p: nat, shardSize: nat)
    requires shardSize > 0 && p > 0
    ensures CeilFrac(p, shardSize) == 1 + CeilFrac(p - Min(p, shardSize), shardSize)
    ensures CeilFrac(p, shardSize) >= 0
  {
    if p >= shardSize {
      DivStep(p, shardSize);
    } else {
      DivUnique(p, shardSize, 0, p);
    }
  }

  // ---------------------------------------------------------------- the stream

  /** What one call of Write adds to the stream. */
  function Framed(h: Hash, p: seq<byte>): (r: seq<byte>) {
    if p == [] then [] else Sum(h, p) + p
  }

  /** The stream after `data` was written shard by shard, the last shard being shorter if need be. */
  function Encode(h: Hash, data: seq<byte>, shardSize: nat): seq<byte>
    requires shardSize > 0
    decreases |data|
  {
    if data == [] then [] else
      var n := Min(|data|, shardSize);
      Framed(h, data[..n]) + Encode(h, data[n..], shardSize)
  }

  lemma Cut(a: seq<byte>, b: seq<byte>, c: seq<byte>)
    ensures var r := a + b + c;
            r[..|a|] == a && r[|a|..|a| + |b|] == b && r[|a| + |b|..] == c
  {
  }

  lemma Regroup(a: seq<byte>, b: seq<byte>, c: seq<byte>, d: seq<byte>)
    ensures ((a + b) + c) + d == a + b + (c + d)
  {
  }

  /** The first hash, the first shard and the rest of a stream. */
  lemma FirstShard(h: Hash, data: seq<byte>, shardSize: nat, tail: seq<byte>)
    requires shardSize > 0 && data != []
    ensures var n := Min(|data|, shardSize);
            var r := Encode(h, data, shardSize) + tail;
            && |r| >= HASH_SIZE + n
            && r[..HASH_SIZE] == Sum(h, data[..n])
            && r[HASH_SIZE..HASH_SIZE + n] == data[..n]
            && r[HASH_SIZE + n..] == Encode(h, data[n..], shardSize) + tail
  {
    var n := Min(|data|, shardSize);
    var head, shard, rest := Sum(h, data[..n]), data[..n], Encode(h, data[n..], shardSize);
    assert Encode(h, data, shardSize) == (head + shard) + rest;
    hide Sum, Encode;
    Regroup(head, shard, rest, tail);
    Cut(head, shard, rest + tail);
  }

  /** The writer's, the reader's and the third size formula all give the length of the stream. */
  lemma {:induction false} SizesAgree(h: Hash, data: seq<byte>, shardSize: nat)
    requires shardSize > 0
    ensures |Encode(h, data, shardSize)| == ShardFileSize(|data|, shardSize, HighwayHash256S)
    ensures WriterFileSize(|data|, shardSize) == |Encode(h, data, shardSize)| && WriterFileSize(-1, shardSize) == -1
    ensures ReaderTill(|data|, shardSize) == |Encode(h, data, shardSize)|
    decreases |data|
  {
    if data == [] {
    } else {
      var n := Min(|data|, shardSize);
      SizesAgree(h, data[n..], shardSize);
      CeilStep(|data|, shardSize);
    }
  }

  /** The stream from a shard-aligned offset on is the stream of the data from there on. */
  lemma {:induction false} EncodeDrop(h: Hash, data: seq<byte>, shardSize: nat, offset: nat)
    requires shardSize > 0 && offset <= |data| && offset % shardSize == 0
    ensures StreamOffset(offset, shardSize) <= |Encode(h, data, shardSize)|
    ensures Encode(h, data, shardSize)[StreamOffset(offset, shardSize)..] == Encode(h, data[offset..], shardSize)
    decreases |data|
  {
    hide Encode, Framed, StreamOffset;
    if offset > 0 {
      AlignedAtLeast(offset, shardSize);
      OffsetStep(offset, shardSize);
      EncodeFull(h, data, shardSize);
      EncodeDrop(h, data[shardSize..], shardSize, offset - shardSize);
      assert data[shardSize..][offset - shardSize..] == data[offset..];
      TakeInTwo(Framed(h, data[..shardSize]), Encode(h, data[shardSize..], shardSize),
                StreamOffset(offset - shardSize, shardSize));
    } else {
      OffsetZero(shardSize);
      assert data[0..] == data;
    }
  }

  lemma EncodeFull(h: Hash, data: seq<byte>, shardSize: nat)
    requires 0 < shardSize <= |data|
    ensures Encode(h, data, shardSize) == Framed(h, data[..shardSize]) + Encode(h, data[shardSize..], shardSize)
    ensures |Framed(h, data[..shardSize])| == HASH_SIZE + shardSize
  {
  }

  lemma OffsetZero(shardSize: nat)
    requires shardSize > 0
    ensures StreamOffset(0, shardSize) == 0
  {
    DivUnique(0, shardSize, 0, 0);
  }

  lemma OffsetStep(offset: nat, shardSize: nat)
    requires shardSize > 0 && offset >= shardSize
    ensures StreamOffset(offset, shardSize) == HASH_SIZE + shardSize + StreamOffset(offset - shardSize, shardSize)
    ensures (offset - shardSize) % shardSize == offset % shardSize
  {
    DivStep(offset, shardSize);
  }

  lemma AlignedAtLeast(offset: nat, shardSize: nat)
    requires shardSize > 0 && offset > 0 && offset % shardSize == 0
    ensures offset >= shardSize
  {
    if offset < shardSize { DivUnique(offset, shardSize, 0, offset); }
  }

  /** The stream up to a reader's end is the stream of the data up to there, if that is a shard border. */
  lemma {:induction false} EncodeTake(h: Hash, data: seq<byte>, shardSize: nat, till: nat)
    requires shardSize > 0 && till <= |data| && (till % shardSize == 0 || till == |data|)
    ensures 0 <= ReaderTill(till, shardSize) <= |Encode(h, data, shardSize)|
    ensures Encode(h, data, shardSize)[..ReaderTill(till, shardSize)] == Encode(h, data[..till], shardSize)
    decreases |data|
  {
    hide Encode, Framed, ReaderTill;
    SizesAgree(h, data, shardSize);
    SizesAgree(h, data[..till], shardSize);
    if till == |data| {
      assert data[..till] == data;
    } else if till > 0 {
      AlignedAtLeast(till, shardSize);
      OffsetStep(till, shardSize);
      var rest, first := data[shardSize..], data[..till];
      EncodeTake(h, rest, shardSize, till - shardSize);
      EncodeFull(h, data, shardSize);
      EncodeFull(h, first, shardSize);
      assert first[..shardSize] == data[..shardSize];
      assert first[shardSize..] == rest[..till - shardSize];
      TakeInTwo(Framed(h, data[..shardSize]), Encode(h, rest, shardSize), ReaderTill(till - shardSize, shardSize));
    }
  }

  lemma TakeInTwo(a: seq<byte>, b: seq<byte>, m: nat)
    requires m <= |b|
    ensures (a + b)[..|a| + m] == a + b[..m]
    ensures (a + b)[|a| + m..] == b[m..]
  {
  }

  class Writer {
    const h: Hash
    var stream: seq<byte>

    constructor (h: Hash)
      ensures this.h == h && stream == []
    {
      this.h := h;
      stream := [];
    }

    /** Write a hash and the bytes to a sink that takes `room` more bytes before it fails. */
    method Write(p: seq<byte>, room: nat) returns (n: nat, ok: bool)
      modifies this
      ensures stream == old(stream) + Prefix(Framed(h, p), room)
      ensures ok <==> |Framed(h, p)| <= room
      ensures n == if room <= HASH_SIZE then 0 else Min(|p|, room - HASH_SIZE)
    {
      hide Sum;
      if |p| == 0 {
        return 0, true;
      }
      var hashBytes := Sum(h, p);
      PrefixJoin(hashBytes, p, room);
      if room < HASH_SIZE {
        stream := stream + hashBytes[..room];
        return 0, false;
      }
      stream := stream + hashBytes;
      n := Min(|p|, room - HASH_SIZE);
      stream := stream + p[..n];
      return n, n == |p|;
    }
  }

  /** The first `n` bytes, or all if there are fewer. */
  function Prefix(s: seq<byte>, n: nat): seq<byte> {
    s[..Min(|s|, n)]
  }

  lemma PrefixJoin(a: seq<byte>, b: seq<byte>, n: nat)
    ensures Prefix(a + b, n) == if n < |a| then a[..n] else a + Prefix(b, n - |a|)
  {
  }

  /** Write `data` a shard at a time, up to the first failure. */
  method WriteShards(w: Writer, data: seq<byte>, shardSize: nat, room: nat) returns (ok: bool)
    requires shardSize > 0
    modifies w
    ensures w.stream == old(w.stream) + Prefix(Encode(w.h, data, shardSize), room)
    ensures ok <==> |Encode(w.h, data, shardSize)| <= room
  {
    hide Framed, Encode, Prefix;
    var rest, left: nat := data, room;
    ghost var whole := w.stream + Prefix(Encode(w.h, data, shardSize), room);
    while rest != []
      invariant w.stream + Prefix(Encode(w.h, rest, shardSize), left) == whole
      invariant |Encode(w.h, rest, shardSize)| <= left <==> |Encode(w.h, data, shardSize)| <= room
      decreases |rest|
    {
      var shard := rest[..Min(|rest|, shardSize)];
      WriteStep(w.h, w.stream, rest, shardSize, left);
      var written;
      written, ok := w.Write(shard, left);
      if !ok {
        return false;
      }
      rest, left := rest[|shard|..], left - HASH_SIZE - |shard|;
    }
    WriteNothing(w.h, w.stream, shardSize, left);
    return true;
  }

  lemma WriteStep(h: Hash, stream: seq<byte>, rest: seq<byte>, shardSize: nat, left: nat)
    requires shardSize > 0 && rest != []
    ensures var n := Min(|rest|, shardSize);
            var frame, more := Framed(h, rest[..n]), Encode(h, rest[n..], shardSize);
            && |frame| == HASH_SIZE + n && |Encode(h, rest, shardSize)| == |frame| + |more|
            && stream + Prefix(Encode(h, rest, shardSize), left) ==
                 if left < |frame| then stream + Prefix(frame, left)
                 else (stream + Prefix(frame, left)) + Prefix(more, left - |frame|)
  {
    var n := Min(|rest|, shardSize);
    var frame, more := Framed(h, rest[..n]), Encode(h, rest[n..], shardSize);
    assert Encode(h, rest, shardSize) == frame + more;
    assert |frame| == HASH_SIZE + n;
    hide Framed, Encode;
    JoinedPrefix(stream, frame, more, left);
  }

  lemma JoinedPrefix(stream: seq<byte>, frame: seq<byte>, more: seq<byte>, left: nat)
    ensures stream + Prefix(frame + more, left) ==
              if left < |frame| then stream + Prefix(frame, left)
              else (stream + Prefix(frame, left)) + Prefix(more, left - |frame|)
  {
    PrefixJoin(frame, more, left);
    if left >= |frame| {
      var rest := Prefix(more, left - |frame|);
      assert Prefix(frame, left) == frame;
      hide Prefix;
      assert stream + (frame + rest) == (stream + frame) + rest;
    }
  }

  lemma WriteNothing(h: Hash, stream: seq<byte>, shardSize: nat, left: nat)
    requires shardSize > 0
    ensures stream + Prefix(Encode(h, [], shardSize), left) == stream && |Encode(h, [], shardSize)| <= left
  {
  }

  // ---------------------------------------------------------------- the reader

  datatype ReadResult = Bytes(buf: seq<byte>) | Unexpected | OpenFailed | ShortRead | FileCorrupt

  /** The bytes of a source from `offset` on, at most `length` of them. */
  function Section(source: seq<byte>, offset: int, length: int): seq<byte> {
    if offset < 0 || length <= 0 || offset >= |source| then []
    else if offset + length <= |source| then source[offset..offset + length]
    else source[offset..]
  }

  /** Read a hash and `n` bytes, and compare; the rest of the stream is returned on success. */
  function ReadShard(h: Hash, rest: seq<byte>, n: nat): (ReadResult, seq<byte>) {
    if |rest| < HASH_SIZE then (ShortRead, [])
    else if |rest| < HASH_SIZE + n then (ShortRead, [])
    else if Sum(h, rest[HASH_SIZE..HASH_SIZE + n]) != rest[..HASH_SIZE] then (FileCorrupt, rest[HASH_SIZE + n..])
    else (Bytes(rest[HASH_SIZE..HASH_SIZE + n]), rest[HASH_SIZE + n..])
  }

  class Reader {
    const h: Hash
    const shardSize: nat
    const till: int
    const inline: seq<byte>
    const file: seq<byte>
    var rc: Option<seq<byte>>
    var currOffset: int

    constructor (h: Hash, inline: seq<byte>, file: seq<byte>, tillOffset: int, shardSize: nat)
      ensures this.h == h && this.inline == inline && this.file == file && this.shardSize == shardSize
      ensures till == ReaderTill(tillOffset, shardSize) && rc == None && currOffset == 0
    {
      this.h, this.inline, this.file, this.shardSize := h, inline, file, shardSize;
      till := ReaderTill(tillOffset, shardSize);
      rc, currOffset := None, 0;
    }

    /** What the first read opens. */
    function Opened(offset: nat): seq<byte>
      requires shardSize > 0
    {
      var at := StreamOffset(offset, shardSize);
      if inline == [] && till != at then Section(file, at, till - at) else Section(inline, at, till - at)
    }

    /** The stream a read at `offset` reads from, unless the read is refused. */
    function Source(offset: nat): seq<byte>
      requires shardSize > 0
      reads this
    {
      if rc.Some? then rc.value else Opened(offset)
    }

    method OpenStream(offset: nat, opens: bool) returns (ok: bool)
      requires shardSize > 0 && rc.None?
      modifies this
      ensures currOffset == offset
      ensures ok <==> opens || inline != [] || till == StreamOffset(offset, shardSize)
      ensures rc == if ok then Some(Opened(offset)) else None
    {
      hide StreamOffset, Section;
      currOffset := offset;
      var at := StreamOffset(offset, shardSize);
      if |inline| == 0 && till != at {
        if !opens {
          return false;
        }
        rc := Some(Section(file, at, till - at));
      } else {
        rc := Some(Section(inline, at, till - at));
      }
      return true;
    }

    /** Read `n` bytes at a shard-aligned offset that follows the previous read; `opens` says whether
        the storage call that opens the file succeeds. */
    method ReadAt(n: nat, offset: nat, opens: bool) returns (r: ReadResult)
      requires shardSize > 0
      modifies this
      ensures offset % shardSize != 0 ==> r == Unexpected && rc == old(rc) && currOffset == old(currOffset)
      ensures offset % shardSize == 0 && old(rc).Some? && offset != old(currOffset) ==>
                r == Unexpected && rc == old(rc) && currOffset == old(currOffset)
      ensures r == OpenFailed <==>
                && offset % shardSize == 0 && old(rc).None? && !opens
                && inline == [] && till != StreamOffset(offset, shardSize)
      ensures r == OpenFailed ==> rc == None && currOffset == offset
      ensures offset % shardSize == 0 && (old(rc).Some? ==> offset == old(currOffset)) && r != OpenFailed ==>
                var source := old(Source(offset));
                && (r == ShortRead <==> |source| < HASH_SIZE + n)
                && (r == FileCorrupt <==>
                      && |source| >= HASH_SIZE + n
                      && Sum(h, source[HASH_SIZE..HASH_SIZE + n]) != source[..HASH_SIZE])
                && (r.Bytes? <==>
                      && |source| >= HASH_SIZE + n
                      && Sum(h, source[HASH_SIZE..HASH_SIZE + n]) == source[..HASH_SIZE])
                && (r.Bytes? ==> r.buf == source[HASH_SIZE..HASH_SIZE + n])
                && currOffset == (if r.Bytes? then offset + n else offset)
                && rc == Some(if r == ShortRead then [] else source[HASH_SIZE + n..])
    {
      hide Opened, StreamOffset, Sum;
      if offset % shardSize != 0 {
        return Unexpected;
      }
      if rc.None? {
        var ok := OpenStream(offset, opens);
        if !ok {
          return OpenFailed;
        }
      }
      if offset != currOffset {
        return Unexpected;
      }
      var rest := rc.value;
      if |rest| < HASH_SIZE || |rest| < HASH_SIZE + n {
        rc := Some([]);
        return ShortRead;
      }
      var hashBytes, buf := rest[..HASH_SIZE], rest[HASH_SIZE..HASH_SIZE + n];
      rc := Some(rest[HASH_SIZE + n..]);
      if Sum(h, buf) != hashBytes {
        return FileCorrupt;
      }
      currOffset := currOffset + |buf|;
      return Bytes(buf);
    }
  }

  /** What successive reads return that together ask for `count` bytes, a shard at a time: all the bytes, or
      the first failure. */
  function ReadOn(h: Hash, rest: seq<byte>, count: nat, shardSize: nat): ReadResult
    requires shardSize > 0
    decreases count
  {
    if count == 0 then Bytes([]) else
      var n := Min(count, shardSize);
      match ReadShard(h, rest, n).0
      case Bytes(buf) => After(buf, ReadOn(h, ReadShard(h, rest, n).1, count - n, shardSize))
      case failure => failure
  }

  /** The outcome of reads that returned `done` and go on with `more`. */
  function After(done: seq<byte>, more: ReadResult): ReadResult {
    if more.Bytes? then Bytes(done + more.buf) else more
  }

  /** Read `count` bytes from `offset` on, a shard at a time, with a reader that was not used yet. */
  method ReadShards(reader: Reader, offset: nat, count: nat) returns (r: ReadResult)
    requires reader.shardSize > 0 && reader.rc.None? && offset % reader.shardSize == 0
    modifies reader
    ensures r == ReadOn(reader.h, reader.Opened(offset), count, reader.shardSize)
  {
    hide ReadOn, After, Sum, Section, StreamOffset;
    var at: nat, left: nat, done: seq<byte> := offset, count, [];
    ghost var all := ReadOn(reader.h, reader.Opened(offset), count, reader.shardSize);
    AfterNothing(all);
    while left > 0
      invariant reader.rc.Some? ==> reader.currOffset == at
      invariant left > 0 ==> at % reader.shardSize == 0
      invariant After(done, ReadOn(reader.h, reader.Source(at), left, reader.shardSize)) == all
    {
      var n := Min(left, reader.shardSize);
      ghost var source := reader.Source(at);
      ReadOnStep(reader.h, source, left, reader.shardSize, done);
      AlignedNext(at, reader.shardSize);
      var shard := reader.ReadAt(n, at, true);
      assert shard == ReadShard(reader.h, source, n).0;
      if !shard.Bytes? {
        return shard;
      }
      at, left, done := at + n, left - n, done + shard.buf;
    }
    ReadOnNothing(reader.h, reader.Source(at), reader.shardSize, done);
    return Bytes(done);
  }

  lemma AlignedNext(at: nat, shardSize: nat)
    requires shardSize > 0 && at % shardSize == 0
    ensures (at + shardSize) % shardSize == 0
  {
    DivStep(at + shardSize, shardSize);
  }

  lemma ReadOnNothing(h: Hash, rest: seq<byte>, shardSize: nat, done: seq<byte>)
    requires shardSize > 0
    ensures After(done, ReadOn(h, rest, 0, shardSize)) == Bytes(done)
  {
    assert done + [] == done;
  }

  lemma AfterNothing(more: ReadResult)
    ensures After([], more) == more
  {
    if more.Bytes? { assert [] + more.buf == more.buf; }
  }

  lemma ReadOnStep(h: Hash, rest: seq<byte>, count: nat, shardSize: nat, done: seq<byte>)
    requires shardSize > 0 && count > 0
    ensures var n := Min(count, shardSize);
            var (shard, more) := ReadShard(h, rest, n);
            After(done, ReadOn(h, rest, count, shardSize)) ==
              if shard.Bytes? then After(done + shard.buf, ReadOn(h, more, count - n, shardSize)) else shard
  {
    hide ReadShard;
    var n := Min(count, shardSize);
    var (shard, more) := ReadShard(h, rest, n);
    var tail := ReadOn(h, more, count - n, shardSize);
    if shard.Bytes? && tail.Bytes? {
      assert done + (shard.buf + tail.buf) == (done + shard.buf) + tail.buf;
    }
  }

  lemma {:induction false} ReadsEncoded(h: Hash, data: seq<byte>, shardSize: nat)
    requires shardSize > 0
    ensures ReadOn(h, Encode(h, data, shardSize), |data|, shardSize) == Bytes(data)
    decreases |data|
  {
    hide Encode, Sum, ReadShard;
    if data == [] {
    } else {
      var n := Min(|data|, shardSize);
      FirstRead(h, data, shardSize);
      ReadsEncoded(h, data[n..], shardSize);
      Rejoin(data, n);
    }
  }

  lemma FirstRead(h: Hash, data: seq<byte>, shardSize: nat)
    requires shardSize > 0 && data != []
    ensures var n := Min(|data|, shardSize);
            ReadShard(h, Encode(h, data, shardSize), n) == (Bytes(data[..n]), Encode(h, data[n..], shardSize))
  {
    hide Encode, Sum;
    FirstShard(h, data, shardSize, []);
    assert Encode(h, data, shardSize) + [] == Encode(h, data, shardSize);
    var rest := Encode(h, data[Min(|data|, shardSize)..], shardSize);
    assert rest + [] == rest;
  }

  /** Reading successive shards from any aligned offset up to any shard border returns exactly the
      bytes that were written there, from a file as from inline data. */
  lemma ReadsBack(h: Hash, data: seq<byte>, shardSize: nat, offset: nat, till: nat)
    requires shardSize > 0 && offset <= till <= |data|
    requires offset % shardSize == 0 && (till % shardSize == 0 || till == |data|)
    ensures var stream := Encode(h, data, shardSize);
            var at := StreamOffset(offset, shardSize);
            var source := Section(stream, at, ReaderTill(till, shardSize) - at);
            ReadOn(h, source, till - offset, shardSize) == Bytes(data[offset..till])
  {
    hide Encode, ReaderTill, StreamOffset, ReadOn, Section;
    EncodeTake(h, data, shardSize, till);
    EncodeDrop(h, data[..till], shardSize, offset);
    assert data[..till][offset..] == data[offset..till];
    ReadsEncoded(h, data[offset..till], shardSize);
    SectionIsMiddle(Encode(h, data, shardSize), StreamOffset(offset, shardSize), ReaderTill(till, shardSize));
  }

  lemma SectionIsMiddle(stream: seq<byte>, at: nat, end: int)
    requires at <= end <= |stream|
    ensures Section(stream, at, end - at) == stream[..end][at..]
  {
  }

  lemma EmptySection(source: seq<byte>, offset: int)
    ensures Section(source, offset, 0) == []
  {
  }

  /** A reader of the written stream, from a file or inline, returns the data from any aligned offset to
      its end offset, if that is a shard border. */
  lemma ReaderReturnsData(reader: Reader, data: seq<byte>, offset: nat, till: nat)
    requires reader.shardSize > 0 && reader.till == ReaderTill(till, reader.shardSize)
    requires var stream := Encode(reader.h, data, reader.shardSize);
             (reader.inline == [] && reader.file == stream) || reader.inline == stream
    requires offset <= till <= |data| && offset % reader.shardSize == 0
    requires till % reader.shardSize == 0 || till == |data|
    ensures ReadOn(reader.h, reader.Opened(offset), till - offset, reader.shardSize) == Bytes(data[offset..till])
  {
    hide Encode, ReadOn, ReaderTill, StreamOffset, Section;
    ReadsBack(reader.h, data, reader.shardSize, offset, till);
    EncodeTake(reader.h, data, reader.shardSize, till);
    EncodeDrop(reader.h, data, reader.shardSize, offset);
    EmptySection(reader.file, StreamOffset(offset, reader.shardSize));
    EmptySection(reader.inline, StreamOffset(offset, reader.shardSize));
  }

  /** A read succeeds only with bytes whose hash precedes them in the stream. */
  lemma ReadIsChecked(h: Hash, rest: seq<byte>, n: nat)
    requires ReadShard(h, rest, n).0.Bytes?
    ensures var buf := ReadShard(h, rest, n).0.buf;
            |buf| == n && Sum(h, buf) + buf == rest[..HASH_SIZE + n]
  {
    assert rest[..HASH_SIZE + n] == rest[..HASH_SIZE] + rest[HASH_SIZE..HASH_SIZE + n];
  }

  // ---------------------------------------------------------------- verification

  datatype Verdict = Sound | Corrupt | ReadError

  /** The verifier's loop on the rest of a stream. */
  function Checked(h: Hash, r: seq<byte>, left: int, shard: int): Verdict
    decreases |r|
  {
    if left <= 0 then Sound
    else if |r| < HASH_SIZE then ReadError
    else
      var read := Limited(NextShard(left, shard), |r| - HASH_SIZE);
      if Sum(h, r[HASH_SIZE..HASH_SIZE + read]) != r[..HASH_SIZE] then Corrupt
      else Checked(h, r[HASH_SIZE + read..], left - HASH_SIZE - read, NextShard(left, shard))
  }

  /** The shard size of the next round of the loop. */
  function NextShard(left: int, shard: int): int {
    if left - HASH_SIZE < shard then left - HASH_SIZE else shard
  }

  /** The number of bytes a limited reader delivers. */
  function Limited(limit: int, available: nat): (n: nat)
    ensures n <= available
  {
    if limit <= 0 then 0 else if limit <= available then limit else available
  }

  /** The copy buffer has `shardSize` bytes, and copying a shard through an empty one panics. */
  predicate BufferServes(stream: seq<byte>, wantSize: int, partSize: int, shardSize: int) {
    || shardSize > 0
    || (shardSize == 0 && (wantSize <= 0 || wantSize != ShardFileSize(partSize, 0, HighwayHash256S)
                           || |stream| < HASH_SIZE))
  }

  method Verify(h: Hash, stream: seq<byte>, wantSize: int, partSize: int, algo: Algorithm, want: seq<byte>,
                shardSize: int)
    returns (verdict: Verdict)
    requires algo == HighwayHash256S ==> BufferServes(stream, wantSize, partSize, shardSize)
    ensures algo != HighwayHash256S ==>
              verdict == if |stream| == wantSize && Sum(h, stream) == want then Sound else Corrupt
    ensures algo == HighwayHash256S ==>
              verdict == if wantSize != ShardFileSize(partSize, shardSize, algo) then Corrupt
                         else Checked(h, stream, wantSize, shardSize)
  {
    hide ShardFileSize, Sum, Limited, Checked, BufferServes;
    if algo != HighwayHash256S {
      if |stream| != wantSize {
        return Corrupt;
      }
      if Sum(h, stream) != want {
        return Corrupt;
      }
      return Sound;
    }
    var left := wantSize;
    if left != ShardFileSize(partSize, shardSize, algo) {
      return Corrupt;
    }
    var r, shard := stream, shardSize;
    while left > 0
      invariant Checked(h, r, left, shard) == Checked(h, stream, wantSize, shardSize)
      decreases |r|
    {
      CheckedRound(h, r, left, shard);
      if |r| < HASH_SIZE {
        return ReadError;
      }
      var hashBuf := r[..HASH_SIZE];
      left := left - HASH_SIZE;
      if left < shard {
        shard := left;
      }
      var read := Limited(shard, |r| - HASH_SIZE);
      left := left - read;
      if Sum(h, r[HASH_SIZE..HASH_SIZE + read]) != hashBuf {
        return Corrupt;
      }
      r := r[HASH_SIZE + read..];
    }
    CheckedDone(h, r, left, shard);
    return Sound;
  }

  lemma CheckedDone(h: Hash, r: seq<byte>, left: int, shard: int)
    requires left <= 0
    ensures Checked(h, r, left, shard) == Sound
  {
  }

  lemma CheckedRound(h: Hash, r: seq<byte>, left: int, shard: int)
    requires left > 0
    ensures |r| < HASH_SIZE ==> Checked(h, r, left, shard) == ReadError
    ensures |r| >= HASH_SIZE ==>
              var read := Limited(NextShard(left, shard), |r| - HASH_SIZE);
              && (Sum(h, r[HASH_SIZE..HASH_SIZE + read]) != r[..HASH_SIZE] ==> Checked(h, r, left, shard) == Corrupt)
              && (Sum(h, r[HASH_SIZE..HASH_SIZE + read]) == r[..HASH_SIZE] ==>
                    Checked(h, r, left, shard) ==
                      Checked(h, r[HASH_SIZE + read..], left - HASH_SIZE - read, NextShard(left, shard)))
  {
  }

  /** The data bytes of a stream of `size` data bytes, without the hashes. */
  function Payload(r: seq<byte>, size: nat, shardSize: nat): seq<byte>
    requires shardSize > 0
    decreases size
  {
    if size == 0 then [] else
      var n := Min(size, shardSize);
      Section(r, HASH_SIZE, n) + Payload(Section(r, HASH_SIZE + n, |r|), size - n, shardSize)
  }

  function StreamSize(size: nat, shardSize: nat): int {
    ShardFileSize(size, shardSize, HighwayHash256S)
  }

  lemma StreamSizeStep(size: nat, shardSize: nat)
    requires shardSize > 0 && size > 0
    ensures var n := Min(size, shardSize);
            StreamSize(size, shardSize) == HASH_SIZE + n + StreamSize(size - n, shardSize)
  {
    CeilStep(size, shardSize);
  }

  lemma {:induction false} StreamSizeNonNegative(size: nat, shardSize: nat)
    requires shardSize > 0
    ensures StreamSize(size, shardSize) >= size
    decreases size
  {
    if size > 0 {
      hide StreamSize;
      StreamSizeStep(size, shardSize);
      StreamSizeNonNegative(size - Min(size, shardSize), shardSize);
    } else {
      DivUnique(0, shardSize, 0, 0);
    }
  }

  lemma PayloadStep(r: seq<byte>, size: nat, shardSize: nat)
    requires shardSize > 0 && size > 0 && |r| >= HASH_SIZE + Min(size, shardSize)
    ensures var n := Min(size, shardSize);
            Payload(r, size, shardSize) ==
              r[HASH_SIZE..HASH_SIZE + n] + Payload(r[HASH_SIZE + n..], size - n, shardSize)
  {
    hide Section;
    SectionParts(r, HASH_SIZE, Min(size, shardSize));
  }

  lemma SectionParts(r: seq<byte>, at: nat, n: nat)
    requires at + n <= |r|
    ensures Section(r, at, n) == r[at..at + n] && Section(r, at + n, |r|) == r[at + n..]
  {
  }

  lemma EncodeStep(h: Hash, buf: seq<byte>, more: seq<byte>, shardSize: nat)
    requires 0 < |buf| <= shardSize && (|buf| < shardSize ==> more == [])
    ensures Encode(h, buf + more, shardSize) == Sum(h, buf) + buf + Encode(h, more, shardSize)
  {
    assert (buf + more)[..|buf|] == buf && (buf + more)[|buf|..] == more;
  }

  /** One round of the loop on a stream that holds a whole shard. */
  lemma CheckedLong(h: Hash, r: seq<byte>, size: nat, shardSize: nat)
    requires shardSize > 0 && size > 0 && |r| >= HASH_SIZE + Min(size, shardSize)
    ensures var n := Min(size, shardSize);
            Checked(h, r, StreamSize(size, shardSize), shardSize) ==
              if Sum(h, r[HASH_SIZE..HASH_SIZE + n]) != r[..HASH_SIZE] then Corrupt
              else Checked(h, r[HASH_SIZE + n..], StreamSize(size - n, shardSize), shardSize)
  {
    hide StreamSize, Checked;
    var n := Min(size, shardSize);
    StreamSizeStep(size, shardSize);
    StreamSizeNonNegative(size - n, shardSize);
    StreamSizeZero(shardSize);
    LongRound(h, r, StreamSize(size, shardSize), shardSize, n);
    if size <= shardSize { LoopEnds(h, r[HASH_SIZE + n..], n, shardSize); }
  }

  lemma LoopEnds(h: Hash, r: seq<byte>, shard: int, shard': int)
    ensures Checked(h, r, 0, shard) == Checked(h, r, 0, shard')
  {
  }

  lemma LongRound(h: Hash, r: seq<byte>, left: int, shard: nat, n: nat)
    requires |r| >= HASH_SIZE + n && left >= HASH_SIZE + n && n > 0
    requires n == if left - HASH_SIZE < shard then left - HASH_SIZE else shard
    ensures Checked(h, r, left, shard) ==
              if Sum(h, r[HASH_SIZE..HASH_SIZE + n]) != r[..HASH_SIZE] then Corrupt
              else Checked(h, r[HASH_SIZE + n..], left - HASH_SIZE - n, n)
  {
  }

  lemma StreamSizeZero(shardSize: nat)
    requires shardSize > 0
    ensures StreamSize(0, shardSize) == 0
  {
    DivUnique(0, shardSize, 0, 0);
  }

  /** A stream that ends within a shard is rejected, even if the cut shard matches its hash. */
  lemma CheckedShort(h: Hash, r: seq<byte>, size: nat, shardSize: nat)
    requires shardSize > 0 && size > 0 && |r| < HASH_SIZE + Min(size, shardSize)
    ensures Checked(h, r, StreamSize(size, shardSize), shardSize) != Sound
    ensures |r| < StreamSize(size, shardSize)
  {
    hide StreamSize, Checked;
    var n := Min(size, shardSize);
    StreamSizeStep(size, shardSize);
    StreamSizeNonNegative(size - n, shardSize);
    TooShort(h, r, StreamSize(size, shardSize), shardSize);
    if |r| >= HASH_SIZE {
      CutShard(h, r, StreamSize(size, shardSize), shardSize);
    }
  }

  lemma TooShort(h: Hash, r: seq<byte>, left: int, shard: nat)
    requires left > 0
    ensures |r| < HASH_SIZE ==> Checked(h, r, left, shard) == ReadError
  {
  }

  lemma CutShard(h: Hash, r: seq<byte>, left: int, shard: nat)
    requires HASH_SIZE <= |r| < left && |r| < HASH_SIZE + shard
    ensures Checked(h, r, left, shard) != Sound
  {
    var read := Limited(NextShard(left, shard), |r| - HASH_SIZE);
    assert read == |r| - HASH_SIZE;
    assert r[HASH_SIZE + read..] == [];
    assert Checked(h, [], left - HASH_SIZE - read, NextShard(left, shard)) == ReadError;
  }

  /** The stream starts with the encoding of its payload of `size` bytes. */
  ghost predicate HoldsEncoding(h: Hash, r: seq<byte>, size: nat, shardSize: nat)
    requires shardSize > 0
  {
    var left := StreamSize(size, shardSize);
    0 <= left <= |r| && r[..left] == Encode(h, Payload(r, size, shardSize), shardSize)
  }

  lemma {:induction false} PayloadLength(r: seq<byte>, size: nat, shardSize: nat)
    requires shardSize > 0 && |r| >= StreamSize(size, shardSize)
    ensures |Payload(r, size, shardSize)| == size
    decreases size
  {
    if size == 0 {
    } else {
      hide StreamSize, Payload;
      var n := Min(size, shardSize);
      StreamSizeStep(size, shardSize);
      StreamSizeNonNegative(size - n, shardSize);
      PayloadStep(r, size, shardSize);
      PayloadLength(r[HASH_SIZE + n..], size - n, shardSize);
    }
  }

  lemma CheckedNothing(h: Hash, r: seq<byte>, shardSize: nat)
    requires shardSize > 0
    ensures Checked(h, r, StreamSize(0, shardSize), shardSize) == Sound && HoldsEncoding(h, r, 0, shardSize)
  {
    StreamSizeZero(shardSize);
  }

  /** The loop accepts exactly the streams that start with the encoding of their payload; in
      particular a stream that ends early is rejected. */
  lemma {:induction false} CheckedIff(h: Hash, r: seq<byte>, size: nat, shardSize: nat)
    requires shardSize > 0
    ensures Checked(h, r, StreamSize(size, shardSize), shardSize) == Sound <==> HoldsEncoding(h, r, size, shardSize)
    decreases size
  {
    hide Checked, Payload, Encode;
    var n := Min(size, shardSize);
    if size == 0 {
      CheckedNothing(h, r, shardSize);
    } else if |r| < HASH_SIZE + n {
      CheckedShort(h, r, size, shardSize);
    } else {
      hide HoldsEncoding, StreamSize;
      CheckedIff(h, r[HASH_SIZE + n..], size - n, shardSize);
      CheckedLong(h, r, size, shardSize);
      CheckedWhole(h, r, size, shardSize);
    }
  }

  /** A stream that holds a whole shard starts with the encoding of its payload exactly when the
      shard matches its hash and the rest of the stream does the same. */
  lemma CheckedWhole(h: Hash, r: seq<byte>, size: nat, shardSize: nat)
    requires shardSize > 0 && size > 0 && |r| >= HASH_SIZE + Min(size, shardSize)
    ensures var n := Min(size, shardSize);
            HoldsEncoding(h, r, size, shardSize) <==>
              && Sum(h, r[HASH_SIZE..HASH_SIZE + n]) == r[..HASH_SIZE]
              && HoldsEncoding(h, r[HASH_SIZE + n..], size - n, shardSize)
  {
    hide StreamSize, Payload, Encode, Sum;
    var n := Min(size, shardSize);
    var buf, rest := r[HASH_SIZE..HASH_SIZE + n], r[HASH_SIZE + n..];
    var more := Payload(rest, size - n, shardSize);
    PayloadStep(r, size, shardSize);
    assert |buf| < shardSize ==> more == [] by { PayloadNothing(rest, shardSize); }
    EncodeStep(h, buf, more, shardSize);
    StreamSizeStep(size, shardSize);
    StreamSizeNonNegative(size - n, shardSize);
    var left := StreamSize(size - n, shardSize);
    if |rest| >= left {
      SliceInThree(r, HASH_SIZE, n, left);
      SplitEqual(r[..HASH_SIZE], buf, rest[..left], Sum(h, buf), Encode(h, more, shardSize));
    }
  }

  lemma PayloadNothing(r: seq<byte>, shardSize: nat)
    requires shardSize > 0
    ensures Payload(r, 0, shardSize) == []
  {
  }

  lemma SliceInThree(r: seq<byte>, a: nat, b: nat, c: nat)
    requires a + b + c <= |r|
    ensures r[..a + b + c] == r[..a] + r[a..a + b] + r[a + b..][..c]
  {
  }

  lemma SplitEqual(a: seq<byte>, buf: seq<byte>, c: seq<byte>, a': seq<byte>, c': seq<byte>)
    requires |a| == |a'|
    ensures a + buf + c == a' + buf + c' <==> a == a' && c == c'
  {
    var x, y := a + buf + c, a' + buf + c';
    if x == y {
      assert a == x[..|a|] == y[..|a|] == a';
      assert c == x[|a| + |buf|..] == y[|a| + |buf|..] == c';
    }
  }

  /** In every round of the loop that starts here, `left` is not negative, and it falls from each round
      to the next. */
  ghost predicate LeftFalls(r: seq<byte>, left: int, shard: int)
    decreases |r|
  {
    && left >= 0
    && (left > 0 && |r| >= HASH_SIZE ==>
          var read := Limited(NextShard(left, shard), |r| - HASH_SIZE);
          var left' := left - HASH_SIZE - read;
          left' < left && LeftFalls(r[HASH_SIZE + read..], left', NextShard(left, shard)))
  }

  /** Whatever the stream holds, the counter of a verification with the right size counts down and
      never below zero. */
  lemma {:induction false} LeftCountsDown(r: seq<byte>, size: nat, shardSize: nat)
    requires shardSize > 0
    ensures LeftFalls(r, StreamSize(size, shardSize), shardSize)
    decreases size
  {
    hide StreamSize;
    StreamSizeZero(shardSize);
    if size > 0 && |r| >= HASH_SIZE {
      var n := Min(size, shardSize);
      StreamSizeStep(size, shardSize);
      StreamSizeNonNegative(size - n, shardSize);
      if |r| >= HASH_SIZE + n {
        LeftCountsDown(r[HASH_SIZE + n..], size - n, shardSize);
      }
    } else {
      StreamSizeNonNegative(size, shardSize);
    }
  }

  /** The verifier accepts a streaming file exactly when its size is right and it holds the encoding
      of its payload, and then reading it back returns that payload. */
  lemma VerifyMeansEncoded(h: Hash, stream: seq<byte>, wantSize: int, partSize: nat, shardSize: nat)
    requires shardSize > 0
    ensures var data := Payload(stream, partSize, shardSize);
            var checked := Checked(h, stream, wantSize, shardSize) == Sound;
            var sound := wantSize == StreamSize(partSize, shardSize) && checked;
            && (sound <==> && 0 <= wantSize == StreamSize(partSize, shardSize) && wantSize <= |stream|
                           && stream[..wantSize] == Encode(h, data, shardSize))
            && (sound ==> |data| == partSize && ReadOn(h, stream[..wantSize], partSize, shardSize) == Bytes(data))
  {
    hide StreamSize, Checked, Encode, Payload;
    CheckedIff(h, stream, partSize, shardSize);
    if |stream| >= StreamSize(partSize, shardSize) { PayloadLength(stream, partSize, shardSize); }
    ReadsEncoded(h, Payload(stream, partSize, shardSize), shardSize);
  }

  /** What was written is accepted. */
  lemma VerifyAcceptsWritten(h: Hash, data: seq<byte>, shardSize: nat, tail: seq<byte>)
    requires shardSize > 0
    ensures StreamSize(|data|, shardSize) == |Encode(h, data, shardSize)|
    ensures Checked(h, Encode(h, data, shardSize) + tail, |Encode(h, data, shardSize)|, shardSize) == Sound
  {
    var stream := Encode(h, data, shardSize);
    SizesAgree(h, data, shardSize);
    PayloadOfEncoded(h, data, shardSize, tail);
    CheckedIff(h, stream + tail, |data|, shardSize);
    assert (stream + tail)[..|stream|] == stream;
  }

  lemma {:induction false} PayloadOfEncoded(h: Hash, data: seq<byte>, shardSize: nat, tail: seq<byte>)
    requires shardSize > 0
    ensures Payload(Encode(h, data, shardSize) + tail, |data|, shardSize) == data
    decreases |data|
  {
    hide Encode, Payload, Sum;
    var r := Encode(h, data, shardSize) + tail;
    if data == [] {
      PayloadNothing(r, shardSize);
    } else {
      var n := Min(|data|, shardSize);
      FirstShard(h, data, shardSize, tail);
      PayloadStep(r, |data|, shardSize);
      PayloadOfEncoded(h, data[n..], shardSize, tail);
      Rejoin(data, n);
    }
  }

  lemma Rejoin(s: seq<byte>, n: nat)
    requires n <= |s|
    ensures s[..n] + s[n..] == s
  {
  }

  // ---------------------------------------------------------------- reading and verifying agree

  lemma ReadOnFirst(h: Hash, r: seq<byte>, size: nat, shardSize: nat)
    requires shardSize > 0 && size > 0
    ensures var n := Min(size, shardSize);
            ReadOn(h, r, size, shardSize) ==
              if |r| < HASH_SIZE + n then ShortRead
              else if Sum(h, r[HASH_SIZE..HASH_SIZE + n]) != r[..HASH_SIZE] then FileCorrupt
              else After(r[HASH_SIZE..HASH_SIZE + n], ReadOn(h, r[HASH_SIZE + n..], size - n, shardSize))
  {
    hide Sum, After;
  }

  /** On a stream that is long enough, reading reports corruption exactly if the verifier does, and returns
      the payload otherwise; on a shorter one it reports a short read or corruption. */
  lemma {:induction false} ReadsLikeVerify(h: Hash, r: seq<byte>, size: nat, shardSize: nat)
    requires shardSize > 0
    ensures var verdict := Checked(h, r, StreamSize(size, shardSize), shardSize);
            var read := ReadOn(h, r, size, shardSize);
            if |r| >= StreamSize(size, shardSize) then
              && (verdict == Corrupt <==> read == FileCorrupt)
              && (verdict == Sound <==> read == Bytes(Payload(r, size, shardSize)))
              && verdict != ReadError
            else
              verdict != Sound && (read == ShortRead || read == FileCorrupt)
    decreases size
  {
    hide Checked, Payload, Sum, StreamSize, ReadOn;
    if size == 0 {
      StreamSizeZero(shardSize);
      CheckedNothing(h, r, shardSize);
      PayloadNothing(r, shardSize);
      ReadOnNothing(h, r, shardSize, []);
      AfterNothing(ReadOn(h, r, 0, shardSize));
    } else {
      var n := Min(size, shardSize);
      StreamSizeStep(size, shardSize);
      StreamSizeNonNegative(size - n, shardSize);
      ReadOnFirst(h, r, size, shardSize);
      if |r| < HASH_SIZE + n {
        CheckedShort(h, r, size, shardSize);
      } else {
        ReadsLikeVerify(h, r[HASH_SIZE + n..], size - n, shardSize);
        CheckedLong(h, r, size, shardSize);
        PayloadStep(r, size, shardSize);
      }
    }
  }

  /** A reader of a whole stream of the right size, from a file or inline, reports corruption exactly if the
      verifier does. */
  lemma CorruptionIsReported(reader: Reader, stream: seq<byte>, size: nat)
    requires reader.shardSize > 0 && reader.till == ReaderTill(size, reader.shardSize)
    requires |stream| == StreamSize(size, reader.shardSize)
    requires (reader.inline == [] && reader.file == stream) || reader.inline == stream
    ensures var verdict := Checked(reader.h, stream, |stream|, reader.shardSize);
            var read := ReadOn(reader.h, reader.Opened(0), size, reader.shardSize);
            && (verdict == Corrupt <==> read == FileCorrupt)
            && (verdict == Sound <==> read == Bytes(Payload(stream, size, reader.shardSize)))
            && verdict != ReadError
  {
    hide Checked, Payload, ReadOn;
    OffsetZero(reader.shardSize);
    assert reader.till == |stream|;
    hide StreamOffset, StreamSize, ReaderTill;
    assert reader.Opened(0) == stream;
    ReadsLikeVerify(reader.h, stream, size, reader.shardSize);
  }
}
