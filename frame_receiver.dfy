/**
 * The chunked JPEG receiver `udp_frame_receiver` of streamer/streamer.py.
 * Each datagram is `IMG0`, a big-endian frame id (4 bytes), chunk total
 * (2 bytes), chunk index (2 bytes), then the payload. One call of `Receive`
 * is one turn of the receive loop; the five-second cleanup is a separate
 * step. Sockets and the clock are not modelled.
 */
module FrameReassembly {
  import opened Wrappers

  type byte = x: int | 0 <= x < 256

  /** ASCII `IMG0`. */
  const MAGIC: seq<byte> := [73, 77, 71, 48]
  const HEADER_LEN: nat := 12

  function Pow256(k: nat): (p: nat)
    ensures p >= 1
  {
    if k == 0 then 1 else 256 * Pow256(k - 1)
  }

  /** `int.from_bytes(bs, 'big')`. */
  function BigEndian(bs: seq<byte>): (n: nat)
    ensures n < Pow256(|bs|)
  {
    if bs == [] then 0
    else
      var hi := BigEndian(bs[..|bs| - 1]);
      assert hi * 256 + bs[|bs| - 1] < Pow256(|bs|) by {
        assert hi <= Pow256(|bs| - 1) - 1;
        assert hi * 256 <= Pow256(|bs|) - 256;
      }
      hi * 256 + bs[|bs| - 1]
  }

  /** The `k`-byte big-endian encoding of `n`. */
  function ToBigEndian(n: nat, k: nat): (bs: seq<byte>)
    requires n < Pow256(k)
    ensures |bs| == k
  {
    if k == 0 then []
    else
      assert n / 256 < Pow256(k - 1);
      ToBigEndian(n / 256, k - 1) + [n % 256]
  }

  lemma {:induction false} BigEndianOfEncoding(n: nat, k: nat)
    requires n < Pow256(k)
    ensures BigEndian(ToBigEndian(n, k)) == n
  {
    if k > 0 {
      var bs := ToBigEndian(n, k);
      assert bs[..k - 1] == ToBigEndian(n / 256, k - 1);
      BigEndianOfEncoding(n / 256, k - 1);
    }
  }

  lemma {:induction false} EncodingOfBigEndian(bs: seq<byte>)
    ensures ToBigEndian(BigEndian(bs), |bs|) == bs
  {
    if bs != [] {
      var init := bs[..|bs| - 1];
      var n := BigEndian(bs);
      assert n / 256 == BigEndian(init) && n % 256 == bs[|bs| - 1];
      EncodingOfBigEndian(init);
      assert bs == init + [bs[|bs| - 1]];
    }
  }

  /** The fields of one datagram. */
  datatype Chunk = Chunk(fid: nat, total: nat, index: nat, payload: seq<byte>)

  /** The header check and field extraction of the receive loop. */
  function ParseDatagram(d: seq<byte>): (r: Option<Chunk>)
    ensures r.None? <==> |d| < HEADER_LEN || d[..4] != MAGIC
    ensures r.Some? ==> r.value.fid < Pow256(4) && r.value.total < Pow256(2) && r.value.index < Pow256(2)
    ensures r.Some? ==> |d| == HEADER_LEN + |r.value.payload|
  {
    if |d| < HEADER_LEN || d[..4] != MAGIC then None
    else Some(Chunk(BigEndian(d[4..8]), BigEndian(d[8..10]), BigEndian(d[10..12]), d[12..]))
  }

  predicate Encodable(c: Chunk)
  {
    c.fid < Pow256(4) && c.total < Pow256(2) && c.index < Pow256(2)
  }

  /** The datagram a sender emits for one chunk. */
  function EncodeChunk(c: Chunk): (d: seq<byte>)
    requires Encodable(c)
    ensures |d| == HEADER_LEN + |c.payload| && d[..4] == MAGIC
  {
    MAGIC + ToBigEndian(c.fid, 4) + ToBigEndian(c.total, 2) + ToBigEndian(c.index, 2) + c.payload
  }

  /** Every encodable chunk parses back to itself. */
  lemma ParseEncode(c: Chunk)
    requires Encodable(c)
    ensures ParseDatagram(EncodeChunk(c)) == Some(c)
  {
    var d := EncodeChunk(c);
    assert d[4..8] == ToBigEndian(c.fid, 4);
    assert d[8..10] == ToBigEndian(c.total, 2);
    assert d[10..12] == ToBigEndian(c.index, 2);
    assert d[12..] == c.payload;
    BigEndianOfEncoding(c.fid, 4);
    BigEndianOfEncoding(c.total, 2);
    BigEndianOfEncoding(c.index, 2);
  }

  /** Every accepted datagram is the encoding of what it parses to: nothing in it is ignored. */
  lemma EncodeParse(d: seq<byte>)
    requires ParseDatagram(d).Some?
    ensures Encodable(ParseDatagram(d).value) && EncodeChunk(ParseDatagram(d).value) == d
  {
    var c := ParseDatagram(d).value;
    EncodingOfBigEndian(d[4..8]);
    EncodingOfBigEndian(d[8..10]);
    EncodingOfBigEndian(d[10..12]);
    assert d == d[..4] + d[4..8] + d[8..10] + d[10..12] + d[12..];
  }

  /** One entry of `partial`: the total announced by its first chunk, the chunks by index, and the payload bytes held. */
  datatype Entry = Entry(total: nat, chunks: map<nat, seq<byte>>, bytes: nat)

  /** Storing a chunk: a repeated index neither overwrites the payload nor counts its bytes again. */
  function AddChunk(e: Entry, index: nat, payload: seq<byte>): (r: Entry)
    ensures r.total == e.total
    ensures index in e.chunks ==> r == e
    ensures index !in e.chunks ==> r.chunks == e.chunks[index := payload] && r.bytes == e.bytes + |payload|
    ensures |r.chunks| == |e.chunks| + (if index in e.chunks then 0 else 1)
  {
    if index in e.chunks then e
    else Entry(e.total, e.chunks[index := payload], e.bytes + |payload|)
  }

  predicate AllIndicesPresent(e: Entry)
  {
    forall i :: 0 <= i < e.total ==> i in e.chunks
  }

  /** Chunks 0..n-1 in index order, concatenated. */
  function ConcatChunks(chunks: map<nat, seq<byte>>, n: nat): seq<byte>
    requires forall i :: 0 <= i < n ==> i in chunks
  {
    if n == 0 then [] else ConcatChunks(chunks, n - 1) + chunks[n - 1]
  }

  /** The `for i in range(total)` reassembly; it fails where the source's lookup raises. */
  method Reassemble(e: Entry) returns (ok: bool, buf: seq<byte>)
    ensures ok <==> AllIndicesPresent(e)
    ensures ok ==> buf == ConcatChunks(e.chunks, e.total)
  {
    buf := [];
    var i := 0;
    while i < e.total
      invariant 0 <= i <= e.total
      invariant forall j :: 0 <= j < i ==> j in e.chunks
      invariant buf == ConcatChunks(e.chunks, i)
    {
      if i !in e.chunks {
        return false, buf;
      }
      buf := buf + e.chunks[i];
      i := i + 1;
    }
    ok := true;
  }

  function Range(n: nat): (r: set<nat>)
    ensures forall i: nat :: i in r <==> i < n
  {
    if n == 0 then {} else Range(n - 1) + {n - 1}
  }

  lemma {:induction false} RangeSize(n: nat)
    ensures |Range(n)| == n
  {
    if n == 0 {
      assert Range(n) == {};
    } else {
      var r := Range(n - 1);
      RangeSize(n - 1);
      assert n - 1 !in r;
      assert Range(n) == r + {n - 1};
    }
  }

  lemma {:induction false} SubsetSize(a: set<nat>, b: set<nat>)
    requires a <= b
    ensures |a| <= |b|
    ensures |a| == |b| ==> a == b
    decreases |b|
  {
    if b != {} {
      var x :| x in b;
      SubsetSize(a - {x}, b - {x});
      if x in a {
        assert a == (a - {x}) + {x};
      } else {
        assert a - {x} == a;
      }
    } else {
      assert a == {};
    }
  }

  /**
   * Once an entry holds as many distinct chunks as its total, the
   * reassembly succeeds exactly when no stored index is out of range.
   */
  lemma CompleteIffIndicesInRange(e: Entry)
    requires |e.chunks| == e.total
    ensures AllIndicesPresent(e) <==> forall k :: k in e.chunks ==> k < e.total
  {
    var keys := e.chunks.Keys;
    RangeSize(e.total);
    if AllIndicesPresent(e) {
      assert Range(e.total) <= keys;
      SubsetSize(Range(e.total), keys);
    }
    if forall k :: k in e.chunks ==> k < e.total {
      assert keys <= Range(e.total);
      SubsetSize(keys, Range(e.total));
    }
  }

  /** After a frame completes: every entry with id up to and including it is removed. */
  function DropUpTo(partial: map<nat, Entry>, fid: nat): (r: map<nat, Entry>)
    ensures forall k :: k in r <==> k in partial && k > fid
    ensures forall k :: k in r ==> r[k] == partial[k]
  {
    map k | k in partial && k > fid :: partial[k]
  }

  function Max(a: int, b: int): int { if a >= b then a else b }

  /** The periodic cleanup keeps an entry only if it holds at least max(1, total // 2) chunks. */
  function Cleanup(partial: map<nat, Entry>): (r: map<nat, Entry>)
    ensures forall k :: k in r <==> k in partial && |partial[k].chunks| >= Max(1, partial[k].total / 2)
    ensures forall k :: k in r ==> r[k] == partial[k]
  {
    map k | k in partial && |partial[k].chunks| >= Max(1, partial[k].total / 2) :: partial[k]
  }

  lemma CleanupIdempotent(partial: map<nat, Entry>)
    ensures Cleanup(Cleanup(partial)) == Cleanup(partial)
  {
  }

  /**
   * An entry announced with total 0 never completes (its count is at least 1)
   * and is never dropped by cleanup; only a later completed frame removes it.
   */
  lemma ZeroTotalEntryPersists(partial: map<nat, Entry>, fid: nat)
    requires fid in partial && partial[fid].total == 0 && |partial[fid].chunks| >= 1
    ensures fid in Cleanup(partial)
  {
  }

  /** The receiver's state: `partial`, `latest_frame_bytes`, and whether the loop has ended. */
  datatype Receiver = Receiver(partial: map<nat, Entry>, latest: Option<seq<byte>>, stopped: bool)

  /** Entries still waiting: none holds exactly as many chunks as its total. */
  predicate Pending(s: Receiver)
  {
    forall k :: k in s.partial ==> |s.partial[k].chunks| != s.partial[k].total
  }

  /** `partial.setdefault(fid, ...)` followed by storing the chunk. */
  function StoreChunk(partial: map<nat, Entry>, c: Chunk): (e: Entry)
    ensures c.fid in partial ==> e == AddChunk(partial[c.fid], c.index, c.payload)
    ensures c.fid !in partial ==> e == Entry(c.total, map[c.index := c.payload], |c.payload|)
  {
    AddChunk(if c.fid in partial then partial[c.fid] else Entry(c.total, map[], 0), c.index, c.payload)
  }

  /**
   * What a well-formed datagram does: store its chunk, then reassemble if the
   * count reached the total. The loop ends exactly when that reassembly's
   * lookup fails, a frame is delivered exactly when it succeeds, and entries
   * of later frames are never touched.
   */
  function Accept(s: Receiver, c: Chunk): (r: Receiver)
    ensures var e := StoreChunk(s.partial, c);
      !s.stopped ==> (r.stopped <==> |e.chunks| == e.total && !AllIndicesPresent(e))
    ensures var e := StoreChunk(s.partial, c);
      r.latest == if |e.chunks| == e.total && AllIndicesPresent(e) then Some(ConcatChunks(e.chunks, e.total)) else s.latest
    ensures forall k :: k in s.partial && k > c.fid ==> k in r.partial && r.partial[k] == s.partial[k]
    ensures |StoreChunk(s.partial, c).chunks| != StoreChunk(s.partial, c).total ==> c.fid in r.partial
  {
    var e := StoreChunk(s.partial, c);
    var p := s.partial[c.fid := e];
    if |e.chunks| != e.total then s.(partial := p)
    else if AllIndicesPresent(e) then Receiver(DropUpTo(p, c.fid), Some(ConcatChunks(e.chunks, e.total)), false)
    else s.(partial := p, stopped := true)
  }

  /** One turn of the receive loop on datagram `d`. */
  function ReceiveStep(s: Receiver, d: seq<byte>): (r: Receiver)
    ensures ParseDatagram(d).None? || s.stopped ==> r == s
  {
    if s.stopped then s
    else match ParseDatagram(d)
      case None => s
      case Some(c) => Accept(s, c)
  }

  /** While the loop runs, no waiting entry holds exactly as many chunks as its total: such an entry is reassembled at once. */
  lemma PendingPreserved(s: Receiver, d: seq<byte>)
    requires Pending(s)
    ensures !ReceiveStep(s, d).stopped ==> Pending(ReceiveStep(s, d))
  {
  }

  /**
   * When an entry reaches its total with a stored index at or beyond that
   * total, the reassembly lookup fails and the receive loop ends; the frame
   * is not delivered.
   */
  lemma OutOfRangeIndexStops(s: Receiver, d: seq<byte>, k: nat)
    requires !s.stopped && ParseDatagram(d).Some?
    requires var e := StoreChunk(s.partial, ParseDatagram(d).value);
      |e.chunks| == e.total && k in e.chunks && k >= e.total
    ensures ReceiveStep(s, d).stopped && ReceiveStep(s, d).latest == s.latest
  {
    var c := ParseDatagram(d).value;
    var e := StoreChunk(s.partial, c);
    CompleteIffIndicesInRange(e);
    assert !AllIndicesPresent(e);
  }

  /** A repeated chunk of a pending frame changes nothing. */
  lemma DuplicateChunkIgnored(s: Receiver, d: seq<byte>)
    requires Pending(s) && ParseDatagram(d).Some?
    requires var c := ParseDatagram(d).value; c.fid in s.partial && c.index in s.partial[c.fid].chunks
    ensures ReceiveStep(s, d) == s
  {
    var c := ParseDatagram(d).value;
    assert s.partial[c.fid := s.partial[c.fid]] == s.partial;
  }

  /** A later chunk does not change the total announced by the first chunk seen for its frame. */
  lemma FirstChunkFixesTotal(s: Receiver, d: seq<byte>)
    requires !s.stopped && ParseDatagram(d).Some?
    requires var c := ParseDatagram(d).value; c.fid in s.partial
    ensures var c := ParseDatagram(d).value;
      c.fid in ReceiveStep(s, d).partial ==> ReceiveStep(s, d).partial[c.fid].total == s.partial[c.fid].total
  {
  }

  /**
   * A chunk that completes its frame with every index in range delivers the
   * frame and removes its entry and every entry with a lower id, keeping the
   * later ones untouched, whether or not the bytes equal the previous frame.
   * Conversely, a step that changes the latest frame was such a completion.
   */
  lemma CompletionDelivers(s: Receiver, d: seq<byte>)
    requires !s.stopped && ParseDatagram(d).Some?
    ensures var r := ReceiveStep(s, d); var c := ParseDatagram(d).value; var e := StoreChunk(s.partial, c);
      |e.chunks| == e.total && AllIndicesPresent(e) ==>
        && r.latest == Some(ConcatChunks(e.chunks, e.total)) && !r.stopped
        && (forall k :: k in r.partial <==> k in s.partial && k > c.fid)
        && (forall k :: k in r.partial ==> r.partial[k] == s.partial[k])
    ensures var r := ReceiveStep(s, d); var c := ParseDatagram(d).value;
      r.latest != s.latest ==>
        && (forall k :: k in r.partial ==> k > c.fid)
        && c.fid !in r.partial
  {
  }

  /** The chunks of `frame` split into `pieces`, fed in order, for frame id `fid`. */
  function Datagrams(fid: nat, pieces: seq<seq<byte>>): (ds: seq<seq<byte>>)
    requires fid < Pow256(4) && |pieces| < Pow256(2)
    ensures |ds| == |pieces|
    ensures forall i :: 0 <= i < |pieces| ==> ds[i] == EncodeChunk(Chunk(fid, |pieces|, i, pieces[i]))
  {
    seq(|pieces|, i requires 0 <= i < |pieces| => EncodeChunk(Chunk(fid, |pieces|, i, pieces[i])))
  }

  function ReceiveAll(s: Receiver, ds: seq<seq<byte>>): Receiver
    decreases |ds|
  {
    if ds == [] then s else ReceiveAll(ReceiveStep(s, ds[0]), ds[1..])
  }

  function Flatten(pieces: seq<seq<byte>>): seq<byte>
  {
    if pieces == [] then [] else Flatten(pieces[..|pieces| - 1]) + pieces[|pieces| - 1]
  }

  function SumLengths(pieces: seq<seq<byte>>): nat
  {
    if pieces == [] then 0 else SumLengths(pieces[..|pieces| - 1]) + |pieces[|pieces| - 1]|
  }

  /** Chunks 0..j-1 of `pieces`, by index. */
  function PrefixChunks(pieces: seq<seq<byte>>, j: nat): (m: map<nat, seq<byte>>)
    requires j <= |pieces|
    ensures |m| == j
    ensures forall i: nat :: i in m <==> i < j
    ensures forall i :: 0 <= i < j ==> m[i] == pieces[i]
  {
    if j == 0 then map[] else PrefixChunks(pieces, j - 1)[j - 1 := pieces[j - 1]]
  }

  /** The entry held after the first `j` chunks of `pieces` arrived. */
  function PartialEntry(pieces: seq<seq<byte>>, j: nat): (e: Entry)
    requires j <= |pieces|
  {
    Entry(|pieces|, PrefixChunks(pieces, j), SumLengths(pieces[..j]))
  }

  lemma {:induction false} ConcatPieces(pieces: seq<seq<byte>>, n: nat)
    requires n <= |pieces|
    ensures ConcatChunks(PartialEntry(pieces, |pieces|).chunks, n) == Flatten(pieces[..n])
  {
    if n > 0 {
      ConcatPieces(pieces, n - 1);
      assert pieces[..n][..n - 1] == pieces[..n - 1];
    }
  }

  lemma NextChunk(pieces: seq<seq<byte>>, j: nat)
    requires j < |pieces|
    ensures AddChunk(PartialEntry(pieces, j), j, pieces[j]) == PartialEntry(pieces, j + 1)
  {
    var e0 := PartialEntry(pieces, j);
    var e1 := PartialEntry(pieces, j + 1);
    assert e0.chunks[j := pieces[j]] == e1.chunks;
    assert pieces[..j + 1][..j] == pieces[..j];
  }

  predicate HoldsFirst(s: Receiver, fid: nat, pieces: seq<seq<byte>>, j: nat)
    requires j <= |pieces|
  {
    !s.stopped && (j == 0 ==> fid !in s.partial) && (j > 0 ==> fid in s.partial && s.partial[fid] == PartialEntry(pieces, j))
  }

  /** Storing chunk j of a frame whose first j chunks are held yields the first j + 1. */
  lemma StoreNext(s: Receiver, fid: nat, pieces: seq<seq<byte>>, j: nat)
    requires j < |pieces| && HoldsFirst(s, fid, pieces, j)
    ensures StoreChunk(s.partial, Chunk(fid, |pieces|, j, pieces[j])) == PartialEntry(pieces, j + 1)
  {
    if j == 0 {
      assert PartialEntry(pieces, 0) == Entry(|pieces|, map[], 0) by {
        assert PartialEntry(pieces, 0).chunks == map[];
        assert pieces[..0] == [];
      }
    }
    NextChunk(pieces, j);
  }

  lemma ReceiveEncoded(s: Receiver, c: Chunk)
    requires !s.stopped && Encodable(c)
    ensures ReceiveStep(s, EncodeChunk(c)) == Accept(s, c)
  {
    ParseEncode(c);
  }

  /** A chunk other than the last of its frame is only stored. */
  lemma MiddleChunkArrives(s: Receiver, fid: nat, pieces: seq<seq<byte>>, j: nat)
    requires fid < Pow256(4) && |pieces| < Pow256(2) && j + 1 < |pieces| && HoldsFirst(s, fid, pieces, j)
    ensures ReceiveStep(s, EncodeChunk(Chunk(fid, |pieces|, j, pieces[j])))
         == s.(partial := s.partial[fid := PartialEntry(pieces, j + 1)])
  {
    var c := Chunk(fid, |pieces|, j, pieces[j]);
    StoreNext(s, fid, pieces, j);
    ReceiveEncoded(s, c);
  }

  /** The last chunk of a frame completes it: the frame is delivered and its entry removed. */
  lemma LastChunkArrives(s: Receiver, fid: nat, pieces: seq<seq<byte>>)
    requires 1 <= |pieces| && HoldsFirst(s, fid, pieces, |pieces| - 1)
    ensures var r := Accept(s, Chunk(fid, |pieces|, |pieces| - 1, pieces[|pieces| - 1]));
      r.latest == Some(ConcatChunks(PartialEntry(pieces, |pieces|).chunks, |pieces|)) && fid !in r.partial && !r.stopped
  {
    var n := |pieces|;
    var c := Chunk(fid, n, n - 1, pieces[n - 1]);
    var e := PartialEntry(pieces, n);
    assert StoreChunk(s.partial, c) == e by {
      StoreNext(s, fid, pieces, n - 1);
    }
    assert |e.chunks| == e.total && AllIndicesPresent(e);
    CompletingChunk(s, c, e);
  }

  lemma FullConcat(pieces: seq<seq<byte>>)
    ensures ConcatChunks(PartialEntry(pieces, |pieces|).chunks, |pieces|) == Flatten(pieces)
  {
    ConcatPieces(pieces, |pieces|);
    assert pieces[..|pieces|] == pieces;
  }

  /** A chunk that brings its entry to a full, in-range set of indices delivers the entry's concatenation. */
  lemma CompletingChunk(s: Receiver, c: Chunk, e: Entry)
    requires StoreChunk(s.partial, c) == e && |e.chunks| == e.total && AllIndicesPresent(e)
    ensures Accept(s, c).latest == Some(ConcatChunks(e.chunks, e.total))
    ensures c.fid !in Accept(s, c).partial && !Accept(s, c).stopped
    ensures Accept(s, c).partial == DropUpTo(s.partial[c.fid := e], c.fid)
  {
  }

  /** Feeding chunks j.. of a frame to a receiver holding its first j chunks. */
  lemma {:induction false} FeedRest(s: Receiver, fid: nat, pieces: seq<seq<byte>>, j: nat)
    requires fid < Pow256(4) && 1 <= |pieces| < Pow256(2) && j < |pieces| && HoldsFirst(s, fid, pieces, j)
    ensures ReceiveAll(s, Datagrams(fid, pieces)[j..]).latest == Some(Flatten(pieces))
    ensures fid !in ReceiveAll(s, Datagrams(fid, pieces)[j..]).partial
    decreases |pieces| - j
  {
    var ds := Datagrams(fid, pieces);
    var c := Chunk(fid, |pieces|, j, pieces[j]);
    var s1 := ReceiveStep(s, EncodeChunk(c));
    var tail := ds[j + 1..];
    assert ReceiveAll(s, ds[j..]) == ReceiveAll(s1, tail) by {
      assert ds[j..][0] == ds[j] == EncodeChunk(c);
      assert ds[j..][1..] == tail;
    }
    if j + 1 == |pieces| {
      assert ReceiveAll(s1, tail) == s1 by {
        assert tail == [];
      }
      assert s1.latest == Some(Flatten(pieces)) && fid !in s1.partial by {
        ReceiveEncoded(s, c);
        LastChunkArrives(s, fid, pieces);
        FullConcat(pieces);
      }
    } else {
      assert HoldsFirst(s1, fid, pieces, j + 1) by {
        MiddleChunkArrives(s, fid, pieces, j);
      }
      FeedRest(s1, fid, pieces, j + 1);
      assert ReceiveAll(s1, tail).latest == Some(Flatten(pieces)) && fid !in ReceiveAll(s1, tail).partial;
    }
  }

  /**
   * A frame whose chunks all arrive, in order, at a running receiver holding
   * no entry for its id is delivered byte for byte, and its entry is gone.
   */
  lemma FrameRoundTrip(s: Receiver, fid: nat, pieces: seq<seq<byte>>)
    requires fid < Pow256(4) && 1 <= |pieces| < Pow256(2)
    requires !s.stopped && fid !in s.partial
    ensures ReceiveAll(s, Datagrams(fid, pieces)).latest == Some(Flatten(pieces))
    ensures fid !in ReceiveAll(s, Datagrams(fid, pieces)).partial
  {
    assert Datagrams(fid, pieces)[0..] == Datagrams(fid, pieces);
    FeedRest(s, fid, pieces, 0);
  }

  class FrameReceiver {
    var partial: map<nat, Entry>
    var latestFrame: Option<seq<byte>>
    var stopped: bool

    function Model(): Receiver
      reads this
    {
      Receiver(partial, latestFrame, stopped)
    }

    constructor ()
      ensures Model() == Receiver(map[], None, false)
    {
      partial := map[];
      latestFrame := None;
      stopped := false;
    }

    method Receive(d: seq<byte>)
      modifies this
      ensures Model() == ReceiveStep(old(Model()), d)
    {
      if stopped {
        return;
      }
      if |d| < HEADER_LEN || d[..4] != MAGIC {
        return;
      }
      var fid := BigEndian(d[4..8]);
      var total := BigEndian(d[8..10]);
      var idx := BigEndian(d[10..12]);
      var payload := d[12..];
      ghost var s0 := Model();
      ghost var c := Chunk(fid, total, idx, payload);
      assert ParseDatagram(d) == Some(c);
      if fid !in partial {
        partial := partial[fid := Entry(total, map[], 0)];
      }
      var entry := partial[fid];
      if idx !in entry.chunks {
        entry := Entry(entry.total, entry.chunks[idx := payload], entry.bytes + |payload|);
        partial := partial[fid := entry];
      }
      ghost var e0 := if fid in s0.partial then s0.partial[fid] else Entry(total, map[], 0);
      assert entry == AddChunk(e0, idx, payload);
      assert partial == s0.partial[fid := entry];
      if |entry.chunks| == entry.total {
        var ok, buf := Reassemble(entry);
        if !ok {
          stopped := true;
          return;
        }
        latestFrame := Some(buf);
        partial := DropUpTo(partial, fid);
      }
    }

    method PeriodicCleanup()
      modifies this
      ensures Model() == old(Model()).(partial := Cleanup(old(partial)))
    {
      partial := Cleanup(partial);
    }
  }
}
