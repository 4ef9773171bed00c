/**
 What WriteColumn sends. Insert and Append hand it a vectored writer, which sends nothing before it is
 flushed; whether it copies the slices chained to it or keeps them is up to the library, so both are
 modelled. It matters where a slice changes in between: the offsets of an Array or Map column are all
 written into one buffer, each slice over the one before.
 */
module Writers {
  import opened Wire
  import opened Codec
  import opened Strings
  import opened Columns
  import opened Wrappers
  import opened LowCardinality
  import opened LowCardColumn

  // ---------- the bytes of the offsets ----------

  /** The longest varint of a 64-bit number. */
  const MAX_VARINT := 10

  predicate Words(offs: seq<nat>) {
    forall i :: 0 <= i < |offs| ==> offs[i] < TWO64
  }

  lemma {:induction false} VarintLength(x: nat, i: nat)
    requires i <= 9 && x < Room(i)
    ensures |UVarint(x)| <= MAX_VARINT - i
    decreases 9 - i
  {
    if x < 128 {
    } else {
      VarintLength(x / 128, i + 1);
    }
  }

  lemma WordLength(x: nat)
    requires x < TWO64
    ensures |UVarint(x)| <= MAX_VARINT
  {
    RoomAll();
    VarintLength(x, 0);
  }

  /** The shared buffer after one more varint is put at its front. */
  function Over(buf: seq<byte>, t: seq<byte>): (r: seq<byte>)
    requires |t| <= |buf|
    ensures |r| == |buf| && r[..|t|] == t
  {
    t + buf[|t|..]
  }

  /** The shared buffer after all offsets. */
  function Shared(buf: seq<byte>, offs: seq<nat>): (r: seq<byte>)
    requires |buf| == MAX_VARINT && Words(offs)
    ensures |r| == MAX_VARINT
    decreases |offs|
  {
    if offs == [] then buf
    else
      WordLength(offs[0]);
      Shared(Over(buf, UVarint(offs[0])), offs[1..])
  }

  /** The slices of the shared buffer, as many bytes for each offset as its varint has. */
  function Slices(buf: seq<byte>, offs: seq<nat>): seq<byte>
    requires |buf| == MAX_VARINT && Words(offs)
  {
    if offs == [] then []
    else
      WordLength(offs[0]);
      buf[..|UVarint(offs[0])|] + Slices(buf, offs[1..])
  }

  /** What writeUVarInts sends. */
  function SentOffsets(copies: bool, offs: seq<nat>): seq<byte>
    requires Words(offs)
  {
    if copies then PutOffsets(offs) else Slices(Shared(Zeros(MAX_VARINT), offs), offs)
  }

  /** No row but the first has elements. */
  predicate Level(offs: seq<nat>) {
    forall i :: 0 <= i < |offs| ==> offs[i] == End(offs)
  }

  lemma {:induction false} VarintMonotone(x: nat, y: nat)
    requires x <= y
    ensures |UVarint(x)| <= |UVarint(y)|
    decreases y
  {
    if x < 128 {
    } else {
      VarintMonotone(x / 128, y / 128);
    }
  }

  /** After all offsets the shared buffer starts with the last one. */
  lemma {:induction false} SharedLast(buf: seq<byte>, offs: seq<nat>)
    requires |buf| == MAX_VARINT && Words(offs) && offs != []
    ensures |UVarint(Last(offs))| <= MAX_VARINT && Shared(buf, offs)[..|UVarint(Last(offs))|] == UVarint(Last(offs))
    decreases |offs|
  {
    WordLength(offs[0]);
    if |offs| == 1 {
      assert offs[1..] == [];
    } else {
      SharedLast(Over(buf, UVarint(offs[0])), offs[1..]);
    }
  }

  /** buf starts with the varint of z, and no offset is larger. */
  predicate Fronts(buf: seq<byte>, offs: seq<nat>, z: nat) {
    && |buf| == MAX_VARINT && z < TWO64 && |UVarint(z)| <= MAX_VARINT && buf[..|UVarint(z)|] == UVarint(z)
    && forall i :: 0 <= i < |offs| ==> offs[i] <= z
  }

  lemma SharedFronts(offs: seq<nat>)
    requires Ascending(offs) && Words(offs) && offs != []
    ensures Fronts(Shared(Zeros(MAX_VARINT), offs), offs, End(offs))
  {
    SharedLast(Zeros(MAX_VARINT), offs);
    AscendingBound(offs);
  }

  /** A varint that starts another is that other. */
  lemma PrefixFree(x: nat, z: nat)
    requires x < TWO64 && z < TWO64 && |UVarint(x)| <= |UVarint(z)| && UVarint(z)[..|UVarint(x)|] == UVarint(x)
    ensures x == z
  {
    var s, rest := UVarint(z), UVarint(z)[|UVarint(x)|..];
    assert s == UVarint(x) + rest && s == s + [];
    VarintRoundTrip(x, rest);
    VarintRoundTrip(z, []);
  }

  /** The slice sent for an offset is its varint exactly when the offset is the last one. */
  lemma SliceExact(buf: seq<byte>, offs: seq<nat>, z: nat)
    requires Fronts(buf, offs, z) && offs != []
    ensures |UVarint(offs[0])| <= |UVarint(z)|
    ensures buf[..|UVarint(offs[0])|] == UVarint(z)[..|UVarint(offs[0])|]
    ensures buf[..|UVarint(offs[0])|] == UVarint(offs[0]) <==> offs[0] == z
  {
    VarintMonotone(offs[0], z);
    var n := |UVarint(offs[0])|;
    assert buf[..|UVarint(z)|][..n] == buf[..n];
    if buf[..n] == UVarint(offs[0]) { PrefixFree(offs[0], z); }
  }

  lemma SplitEqual(a: seq<byte>, b: seq<byte>, c: seq<byte>, d: seq<byte>)
    requires |a| == |c|
    ensures a + b == c + d <==> a == c && b == d
  {
    if a + b == c + d {
      assert a == (a + b)[..|a|] && c == (c + d)[..|a|];
      assert b == (a + b)[|a|..] && d == (c + d)[|a|..];
    }
  }

  lemma {:induction false} SlicesExact(buf: seq<byte>, offs: seq<nat>, z: nat)
    requires Fronts(buf, offs, z)
    ensures |Slices(buf, offs)| == |PutOffsets(offs)|
    ensures Slices(buf, offs) == PutOffsets(offs) <==> forall i :: 0 <= i < |offs| ==> offs[i] == z
  {
    if offs == [] {
    } else {
      var x, tail := offs[0], offs[1..];
      SliceExact(buf, offs, z);
      SlicesExact(buf, tail, z);
      SplitEqual(buf[..|UVarint(x)|], Slices(buf, tail), UVarint(x), PutOffsets(tail));
      if forall i :: 0 <= i < |tail| ==> tail[i] == z {
        assert x == z ==> forall i :: 0 <= i < |offs| ==> offs[i] == if i == 0 then x else tail[i - 1];
      }
      if forall i :: 0 <= i < |offs| ==> offs[i] == z {
        assert forall i :: 0 <= i < |tail| ==> tail[i] == offs[i + 1];
      }
    }
  }

  /**
   The offsets are sent as EncodeColumn would write them if and only if the writer copies what it is
   given or all offsets are equal. Their number of bytes is the same in any case.
   */
  lemma OffsetsExact(copies: bool, offs: seq<nat>)
    requires Ascending(offs) && Words(offs)
    ensures |SentOffsets(copies, offs)| == |PutOffsets(offs)|
    ensures SentOffsets(copies, offs) == PutOffsets(offs) <==> copies || Level(offs)
  {
    if offs != [] && !copies {
      SharedFronts(offs);
      SlicesExact(Shared(Zeros(MAX_VARINT), offs), offs, End(offs));
    }
  }

  /** A row of one element and another: the first offset is sent as the second. */
  lemma OneTwo()
    ensures SentOffsets(true, [1, 2]) == [1, 2] && SentOffsets(false, [1, 2]) == [2, 2]
  {
    var z := Zeros(MAX_VARINT);
    assert [1, 2][1..] == [2] && [2][1..] == [];
    assert UVarint(1) == [1] && UVarint(2) == [2];
    assert PutOffsets([2]) == [2] + PutOffsets([]) == [2];
    var buf := Shared(z, [1, 2]);
    assert buf == Over(Over(z, [1]), [2]) && buf[..1] == [2];
    assert Slices(buf, [2]) == [2] + Slices(buf, []) == [2];
  }

  // ---------- the bytes of a column ----------

  /** What Go's uint64 guarantees of the offsets. */
  predicate AllWords(sh: Shape, c: Cols) {
    match sh
    case Leaf(_) => true
    case Array(e) => c.Arr? ==> Words(c.offs) && AllWords(e, c.elem)
    case Map(k, v) => c.Mp? ==> Words(c.offs) && AllWords(k, c.keys) && AllWords(v, c.values)
  }

  /** What WriteColumn sends; a fixed-width leaf whose byte count overflows sends nothing. */
  function Sent(copies: bool, sh: Shape, c: Cols): seq<byte>
    requires HasForm(sh, c) && LeavesTyped(sh, c) && AllWords(sh, c)
  {
    match sh
    case Leaf(k) => if MulsFit(sh, c) then PutLeaves(k, c.vals) else []
    case Array(e) => SentOffsets(copies, c.offs) + Sent(copies, e, c.elem)
    case Map(k, v) => SentOffsets(copies, c.offs) + (Sent(copies, k, c.keys) + Sent(copies, v, c.values))
  }

  /** At every Array and Map inside, all offsets are equal. */
  predicate AllLevel(sh: Shape, c: Cols)
    requires HasForm(sh, c)
  {
    match sh
    case Leaf(_) => true
    case Array(e) => Level(c.offs) && AllLevel(e, c.elem)
    case Map(k, v) => Level(c.offs) && AllLevel(k, c.keys) && AllLevel(v, c.values)
  }

  lemma {:induction false} SoundWords(sh: Shape, c: Cols)
    requires Sound(sh, c) && Fits(sh, c)
    ensures AllWords(sh, c)
  {
    match sh
    case Leaf(_) =>
    case Array(e) =>
      AscendingBound(c.offs);
      SoundWords(e, c.elem);
    case Map(k, v) =>
      AscendingBound(c.offs);
      SoundWords(k, c.keys);
      SoundWords(v, c.values);
  }

  /** WriteColumn sends what EncodeColumn writes if and only if slices are copied or all offsets inside are level. */
  lemma {:induction false} SentExact(copies: bool, sh: Shape, c: Cols)
    requires Sound(sh, c) && Fits(sh, c)
    ensures HasForm(sh, c) && LeavesTyped(sh, c) && AllWords(sh, c)
    ensures |Sent(copies, sh, c)| == |Encode(sh, c)|
    ensures Sent(copies, sh, c) == Encode(sh, c) <==> copies || AllLevel(sh, c)
    decreases sh
  {
    SoundTyped(sh, c);
    SoundWords(sh, c);
    match sh
    case Leaf(_) => FitsMuls(sh, c);
    case Array(e) =>
      OffsetsExact(copies, c.offs);
      SentExact(copies, e, c.elem);
      SplitEqual(SentOffsets(copies, c.offs), Sent(copies, e, c.elem), PutOffsets(c.offs), Encode(e, c.elem));
    case Map(k, v) =>
      OffsetsExact(copies, c.offs);
      SentExact(copies, k, c.keys);
      SentExact(copies, v, c.values);
      var ks, vs := Sent(copies, k, c.keys), Sent(copies, v, c.values);
      SplitEqual(ks, vs, Encode(k, c.keys), Encode(v, c.values));
      SplitEqual(SentOffsets(copies, c.offs), ks + vs, PutOffsets(c.offs), Encode(k, c.keys) + Encode(v, c.values));
  }

  // ---------- what a reader makes of slices that changed ----------

  /** The same offsets at every level. */
  predicate SameOffsets(sh: Shape, c: Cols, d: Cols)
    requires HasForm(sh, c) && HasForm(sh, d)
  {
    match sh
    case Leaf(_) => true
    case Array(e) => c.offs == d.offs && SameOffsets(e, c.elem, d.elem)
    case Map(k, v) => c.offs == d.offs && SameOffsets(k, c.keys, d.keys) && SameOffsets(v, c.values, d.values)
  }

  lemma {:induction false} SameOffsetsSelf(sh: Shape, c: Cols)
    requires HasForm(sh, c)
    ensures SameOffsets(sh, c, c)
  {
    match sh
    case Leaf(_) =>
    case Array(e) => SameOffsetsSelf(e, c.elem);
    case Map(k, v) => SameOffsetsSelf(k, c.keys); SameOffsetsSelf(v, c.values);
  }

  /** All bytes have a continuation bit. */
  predicate Continued(s: seq<byte>) {
    forall i :: 0 <= i < |s| ==> s[i] >= 128
  }

  lemma {:induction false} VarintContinued(x: nat)
    ensures Continued(UVarint(x)[..|UVarint(x)| - 1])
  {
    if x < 128 {
    } else {
      var tail := UVarint(x / 128);
      VarintContinued(x / 128);
      assert UVarint(x)[..|UVarint(x)| - 1] == [x % 128 + 128] + tail[..|tail| - 1];
    }
  }

  /** Behind groups with continuation bits, a value that is not zero makes the whole as large as their weight. */
  lemma {:induction false} ReadThrough(c: seq<byte>, s: seq<byte>, i: nat)
    requires Continued(c) && ReadGroups(c + s, i).Ok?
    ensures ReadGroups(s, i + |c|).Ok?
    ensures ReadGroups(s, i + |c|).value > 0 ==> ReadGroups(c + s, i).value >= Pow128(|c|)
    decreases |c|
  {
    if c == [] {
      assert c + s == s;
    } else {
      assert (c + s)[1..] == c[1..] + s;
      ReadThrough(c[1..], s, i + 1);
    }
  }

  /** A varint that is read in the middle of a number: its value, if it fits. */
  lemma VarintInside(z: nat, s: seq<byte>, i: nat)
    requires 0 < z < TWO64 && ReadGroups(UVarint(z) + s, i).Ok?
    ensures ReadGroups(UVarint(z) + s, i).value > 0
    decreases z
  {
    if z < 128 {
    } else {
      assert (UVarint(z) + s)[1..] == UVarint(z / 128) + s;
      VarintInside(z / 128, s, i + 1);
    }
  }

  /** Slices of a varint end with the whole of it, so they never read as zero. */
  lemma {:induction false} SlicesPositive(buf: seq<byte>, offs: seq<nat>, z: nat, s: seq<byte>, i: nat)
    requires Fronts(buf, offs, z) && z > 0 && offs != [] && Last(offs) == z
    requires ReadGroups(Slices(buf, offs) + s, i).Ok?
    ensures ReadGroups(Slices(buf, offs) + s, i).value > 0
    decreases |offs|
  {
    var n, u, tail := |UVarint(offs[0])|, UVarint(z), Slices(buf, offs[1..]);
    SliceExact(buf, offs, z);
    Assoc(buf[..n], tail, s);
    if n == |u| {
      assert buf[..n] == u;
      VarintInside(z, tail + s, i);
    } else {
      CutContinued(z, n);
      ReadThrough(u[..n], tail + s, i);
      SlicesPositive(buf, offs[1..], z, s, i + n);
    }
  }

  lemma CutContinued(z: nat, n: nat)
    requires n < |UVarint(z)|
    ensures Continued(UVarint(z)[..n])
  {
    VarintContinued(z);
    assert forall i :: 0 <= i < n ==> UVarint(z)[..n][i] == UVarint(z)[..|UVarint(z)| - 1][i];
  }

  /** When the first offset is not the last, a reader never gets it. */
  lemma FirstOffsetLost(offs: seq<nat>, s: seq<byte>)
    requires Ascending(offs) && Words(offs) && !Level(offs)
    ensures offs != []
    ensures var r := ReadUVarint(SentOffsets(false, offs) + s); r.Ok? ==> r.value != offs[0]
  {
    var buf, z := Shared(Zeros(MAX_VARINT), offs), End(offs);
    SharedFronts(offs);
    FirstBelow(offs);
    SliceExact(buf, offs, z);
    var n, u, tail := |UVarint(offs[0])|, UVarint(z), Slices(buf, offs[1..]);
    Assoc(buf[..n], tail, s);
    if n == |u| {
      assert buf[..n] == u;
      VarintRoundTrip(z, tail + s);
    } else {
      CutContinued(z, n);
      CutLost(buf, offs, z, u[..n], s);
    }
  }

  /** A slice that is cut inside the varint reads as a number of more groups than the offset has. */
  lemma CutLost(buf: seq<byte>, offs: seq<nat>, z: nat, cut: seq<byte>, s: seq<byte>)
    requires |offs| > 1 && Fronts(buf, offs[1..], z) && z > 0 && Last(offs[1..]) == z
    requires Continued(cut) && |cut| == |UVarint(offs[0])|
    ensures var r := ReadUVarint(cut + (Slices(buf, offs[1..]) + s)); r.Ok? ==> r.value != offs[0]
  {
    var rest := Slices(buf, offs[1..]) + s;
    VarintBelow(offs[0]);
    if ReadGroups(cut + rest, 0).Ok? {
      ReadThrough(cut, rest, 0);
      SlicesPositive(buf, offs[1..], z, s, |cut|);
    }
  }

  lemma FirstBelow(offs: seq<nat>)
    requires Ascending(offs) && !Level(offs)
    ensures |offs| > 1 && offs[0] < End(offs)
  {
    AscendingBound(offs);
    var i :| 0 <= i < |offs| && offs[i] != End(offs);
    FirstLeast(offs, i);
  }

  lemma {:induction false} FirstLeast(offs: seq<nat>, i: nat)
    requires Ascending(offs) && i < |offs|
    ensures offs[0] <= offs[i]
  {
    if i == 0 {
    } else if i < |offs| - 1 {
      FirstLeast(Init(offs), i);
    } else {
      FirstLeast(Init(offs), i - 1);
      AscendingBound(Init(offs));
      assert Init(offs)[i - 1] <= End(Init(offs)) <= Last(offs);
    }
  }

  /** A reader of slices that changed fails or gets other offsets: never the column that was sent. */
  lemma {:induction false} SentLost(sh: Shape, prior: Cols, c: Cols, tail: seq<byte>)
    requires HasForm(sh, prior) && Sound(sh, c) && Fits(sh, c)
    requires HasForm(sh, c) && LeavesTyped(sh, c) && AllWords(sh, c) && !AllLevel(sh, c)
    ensures var r := Decode(sh, prior, Len(c), Sent(false, sh, c) + tail);
            r.Ok? ==> !SameOffsets(sh, r.value, c)
    decreases sh, 1
  {
    match sh
    case Leaf(_) =>
    case Array(e) =>
      var inner := Sent(false, e, c.elem);
      Assoc(SentOffsets(false, c.offs), inner, tail);
      if !Level(c.offs) {
        FirstOffsetLost(c.offs, inner + tail);
      } else {
        OffsetsExact(false, c.offs);
        AscendingBound(c.offs);
        OffsetsRoundTrip(c.offs, inner + tail);
        SentLost(e, prior.elem, c.elem, tail);
      }
    case Map(_, _) => MapLost(sh, prior, c, tail);
  }

  lemma {:induction false} MapLost(sh: Shape, prior: Cols, c: Cols, tail: seq<byte>)
    requires HasForm(sh, prior) && Sound(sh, c) && Fits(sh, c) && sh.Map?
    requires HasForm(sh, c) && LeavesTyped(sh, c) && AllWords(sh, c) && !AllLevel(sh, c)
    ensures var r := Decode(sh, prior, Len(c), Sent(false, sh, c) + tail);
            r.Ok? ==> !SameOffsets(sh, r.value, c)
    decreases sh, 0
  {
    var ks, vs := Sent(false, sh.key, c.keys), Sent(false, sh.val, c.values);
    Assoc(SentOffsets(false, c.offs), ks + vs, tail);
    Assoc(ks, vs, tail);
    if !Level(c.offs) {
      FirstOffsetLost(c.offs, ks + (vs + tail));
    } else {
      OffsetsExact(false, c.offs);
      AscendingBound(c.offs);
      OffsetsRoundTrip(c.offs, ks + (vs + tail));
      if !AllLevel(sh.key, c.keys) {
        SentLost(sh.key, prior.keys, c.keys, vs + tail);
      } else {
        SentExact(false, sh.key, c.keys);
        DecodeEncode(sh.key, prior.keys, c.keys, vs + tail);
        SentLost(sh.val, prior.values, c.values, tail);
      }
    }
  }

  // ---------- the writer ----------

  /** What is chained to the writer: bytes of its own, or a slice of an array that others may still change. */
  datatype Chunk = Own(bytes: seq<byte>) | Kept(buf: array<byte>, n: nat)

  function Buffers(chunks: seq<Chunk>): set<array<byte>> {
    set i | 0 <= i < |chunks| && chunks[i].Kept? :: chunks[i].buf
  }

  predicate ChunksOk(chunks: seq<Chunk>) {
    forall i :: 0 <= i < |chunks| && chunks[i].Kept? ==> chunks[i].n <= chunks[i].buf.Length
  }

  function ChunkBytes(c: Chunk): seq<byte>
    requires c.Kept? ==> c.n <= c.buf.Length
    reads if c.Kept? then {c.buf} else {}
  {
    if c.Own? then c.bytes else c.buf[..c.n]
  }

  /** What a flush sends: the slices as they are then. */
  function Flushed(chunks: seq<Chunk>): seq<byte>
    requires ChunksOk(chunks)
    reads Buffers(chunks)
  {
    if chunks == [] then [] else ChunkBytes(chunks[0]) + Flushed(chunks[1..])
  }

  /** As long as their arrays do not change, the chunks are sent as before. */
  twostate lemma {:induction false} FlushedSame(chunks: seq<Chunk>)
    requires ChunksOk(chunks)
    requires forall i :: 0 <= i < |chunks| && chunks[i].Kept? ==> chunks[i].buf[..] == old(chunks[i].buf[..])
    ensures Flushed(chunks) == old(Flushed(chunks))
  {
    if chunks == [] {
    } else {
      FlushedSame(chunks[1..]);
      if chunks[0].Kept? {
        var n, buf := chunks[0].n, chunks[0].buf;
        assert buf[..n] == buf[..][..n] && old(buf[..n]) == old(buf[..])[..n];
      }
    }
  }

  lemma {:induction false} FlushedAppend(a: seq<Chunk>, b: seq<Chunk>)
    requires ChunksOk(a) && ChunksOk(b)
    ensures ChunksOk(a + b) && Flushed(a + b) == Flushed(a) + Flushed(b)
  {
    ChunksAppend(a, b);
    if a == [] {
      assert a + b == b;
    } else {
      var all, rest := a + b, a[1..];
      assert all[1..] == rest + b && all[0] == a[0];
      FlushedFirst(a);
      FlushedFirst(all);
      FlushedAppend(rest, b);
      Assoc(ChunkBytes(a[0]), Flushed(rest), Flushed(b));
    }
  }

  lemma FlushedFirst(chunks: seq<Chunk>)
    requires ChunksOk(chunks) && chunks != []
    ensures ChunksOk(chunks[1..]) && Flushed(chunks) == ChunkBytes(chunks[0]) + Flushed(chunks[1..])
  {
  }

  lemma ChunksAppend(a: seq<Chunk>, b: seq<Chunk>)
    requires ChunksOk(a) && ChunksOk(b)
    ensures ChunksOk(a + b)
  {
  }

  /** What is chained for an offset that was put into buf. */
  function ChunkFor(copies: bool, buf: array<byte>, x: nat): Chunk {
    if copies then Own(UVarint(x)) else Kept(buf, |UVarint(x)|)
  }

  predicate ChunksFor(chunks: seq<Chunk>, copies: bool, buf: array<byte>, offs: seq<nat>) {
    |chunks| == |offs| && forall i :: 0 <= i < |offs| ==> chunks[i] == ChunkFor(copies, buf, offs[i])
  }

  lemma {:induction false} FlushedFor(chunks: seq<Chunk>, copies: bool, buf: array<byte>, offs: seq<nat>)
    requires buf.Length == MAX_VARINT && Words(offs) && ChunksFor(chunks, copies, buf, offs)
    ensures ChunksOk(chunks) && Flushed(chunks) == if copies then PutOffsets(offs) else Slices(buf[..], offs)
  {
    forall i | 0 <= i < |chunks| && chunks[i].Kept?
      ensures chunks[i].n <= chunks[i].buf.Length
    {
      WordLength(offs[i]);
    }
    if offs == [] {
    } else {
      FlushedFor(chunks[1..], copies, buf, offs[1..]);
      if !copies { assert buf[..chunks[0].n] == buf[..][..chunks[0].n]; }
    }
  }

  class Writer {
    const copies: bool
    var chunks: seq<Chunk>

    ghost predicate Valid()
      reads this
    {
      ChunksOk(chunks)
    }

    /** What would be sent if the writer were flushed now. */
    ghost function Pending(): seq<byte>
      requires Valid()
      reads this, Buffers(chunks)
    {
      Flushed(chunks)
    }

    constructor (copies: bool)
      ensures Valid() && Pending() == [] && this.copies == copies && chunks == []
    {
      this.copies, chunks := copies, [];
    }

    method ChainWrite(buf: array<byte>, n: nat)
      requires Valid() && n <= buf.Length
      modifies this
      ensures Valid() && chunks == old(chunks) + [if copies then Own(buf[..n]) else Kept(buf, n)]
    {
      chunks := chunks + [if copies then Own(buf[..n]) else Kept(buf, n)];
    }

    /** ChainBuffer, and ChainWrite of memory that does not change before the flush. */
    method ChainBytes(s: seq<byte>)
      requires Valid()
      modifies this
      ensures Valid() && chunks == old(chunks) + [Own(s)]
    {
      chunks := chunks + [Own(s)];
    }
  }

  /** binary.PutUvarint: the varint over the front of buf. */
  method PutUvarint(buf: array<byte>, x: nat) returns (n: nat)
    requires |UVarint(x)| <= buf.Length
    modifies buf
    ensures n == |UVarint(x)| && buf[..] == Over(old(buf[..]), UVarint(x))
  {
    var bytes := UVarint(x);
    n := |bytes|;
    forall i | 0 <= i < n {
      buf[i] := bytes[i];
    }
    assert buf[..] == bytes + old(buf[..])[n..];
  }

  lemma {:induction false} SharedPush(buf: seq<byte>, offs: seq<nat>, x: nat)
    requires |buf| == MAX_VARINT && Words(offs + [x]) && Words(offs) && |UVarint(x)| <= MAX_VARINT
    ensures Shared(buf, offs + [x]) == Over(Shared(buf, offs), UVarint(x))
    decreases |offs|
  {
    if offs == [] {
      assert (offs + [x])[1..] == [];
    } else {
      WordLength(offs[0]);
      assert (offs + [x])[1..] == offs[1..] + [x] && (offs + [x])[0] == offs[0];
      SharedPush(Over(buf, UVarint(offs[0])), offs[1..], x);
    }
  }

  method ChainOffset(w: Writer, buf: array<byte>, x: nat)
    requires w.Valid() && buf.Length == MAX_VARINT && x < TWO64 && |UVarint(x)| <= MAX_VARINT
    modifies w, buf
    ensures w.Valid() && w.chunks == old(w.chunks) + [ChunkFor(w.copies, buf, x)]
    ensures buf[..] == Over(old(buf[..]), UVarint(x))
  {
    var n := PutUvarint(buf, x);
    assert buf[..n] == buf[..][..n];
    w.ChainWrite(buf, n);
  }

  /** writeUVarInts: all offsets go through one buffer, and what a later flush sends depends on the writer. */
  method WriteUVarInts(w: Writer, offs: seq<nat>)
    requires w.Valid() && Words(offs)
    modifies w
    ensures w.Valid() && w.Pending() == old(w.Pending()) + SentOffsets(w.copies, offs)
  {
    var buf := new byte[MAX_VARINT](_ => 0);
    ghost var before := w.chunks;
    ghost var added := ChainOffsets(w, buf, offs);
    FlushedFor(added, w.copies, buf, offs);
    FlushedSame(before);
    FlushedAppend(before, added);
  }

  method ChainOffsets(w: Writer, buf: array<byte>, offs: seq<nat>) returns (ghost added: seq<Chunk>)
    requires w.Valid() && Words(offs) && buf.Length == MAX_VARINT && buf[..] == Zeros(MAX_VARINT)
    modifies w, buf
    ensures w.Valid() && w.chunks == old(w.chunks) + added && ChunksFor(added, w.copies, buf, offs)
    ensures buf[..] == Shared(Zeros(MAX_VARINT), offs)
  {
    ghost var before := w.chunks;
    added := [];
    assert offs[..0] == [];
    for i := 0 to |offs|
      invariant w.Valid() && w.chunks == before + added && ChunksFor(added, w.copies, buf, offs[..i])
      invariant buf[..] == Shared(Zeros(MAX_VARINT), offs[..i])
    {
      WordLength(offs[i]);
      assert offs[..i + 1] == offs[..i] + [offs[i]];
      SharedPush(Zeros(MAX_VARINT), offs[..i], offs[i]);
      ChainOffset(w, buf, offs[i]);
      added := added + [ChunkFor(w.copies, buf, offs[i])];
    }
    assert offs[..|offs|] == offs;
  }

  method ChainMore(w: Writer, s: seq<byte>)
    requires w.Valid()
    modifies w
    ensures w.Valid() && w.Pending() == old(w.Pending()) + s
  {
    ghost var before, one := w.chunks, [Own(s)];
    assert one[1..] == [] && s + [] == s;
    w.ChainBytes(s);
    FlushedSame(before);
    FlushedAppend(before, one);
  }

  /** BaseColumn and the wide integers: the memory of the data, or nothing when its size overflows. */
  method WriteFixed(c: FixedColumn, w: Writer)
    requires c.Valid() && w.Valid()
    modifies w
    ensures w.Valid()
    ensures w.Pending() == old(w.Pending()) + if |c.data| * c.w <= MAX_INT then PutLeaves(Fixed(c.w), c.data) else []
  {
    assert w.Pending() + [] == w.Pending();
    if |c.data| == 0 { return; }
    SafeMulExact(|c.data|, c.w);
    var n := SafeMul(|c.data|, c.w);
    if n.Failed? { return; }
    BulkWrite(c.w, c.data);
    ChainMore(w, Memory(c.w, c.data));
  }

  method WriteLeaves(w: Writer, k: Kind, vs: seq<Value>)
    requires w.Valid() && AllTyped(k, vs)
    modifies w
    ensures w.Valid() && w.Pending() == old(w.Pending()) + PutLeaves(k, vs)
  {
    ghost var before := w.chunks;
    var s := LeafBytes(k, vs);
    FlushedSame(before);
    ChainMore(w, s);
  }

  method LeafBytes(k: Kind, vs: seq<Value>) returns (s: seq<byte>)
    requires AllTyped(k, vs)
    ensures s == PutLeaves(k, vs)
  {
    var b := new Buffer();
    PutEach(b, k, vs);
    s := b.buf;
  }

  /** WriteColumn on any nesting, up to the flush. */
  method WriteColumn(c: Column, w: Writer)
    requires c.Valid() && w.Valid() && w !in c.Repr() && AllWords(c.Form(), c.State())
    modifies w
    ensures w.Valid() && w.Pending() == old(w.Pending()) + Sent(w.copies, c.Form(), c.State())
    decreases c.Form(), 1
  {
    match c
    case FixedCol(f) => WriteFixed(f, w);
    case StrCol(s) => WriteLeaves(w, Text, s.data.View());
    case BlobCol(b) => WriteLeaves(w, Blob(b.n), b.data);
    case ArrayCol(a) => WriteArray(a, w);
    case MapCol(m) => WriteMap(m, w);
  }

  method WriteArray(a: ArrayColumn, w: Writer)
    requires a.Valid() && w.Valid() && w !in a.repr && AllWords(a.shape, a.State())
    modifies w
    ensures w.Valid() && w.Pending() == old(w.Pending()) + Sent(w.copies, a.shape, a.State())
    decreases a.shape, 0
  {
    ghost var before, offs, inner := w.Pending(), SentOffsets(w.copies, a.offsets), a.elem.State();
    WriteUVarInts(w, a.offsets);
    assert a.elem.State() == inner;
    WriteColumn(a.elem, w);
    Assoc(before, offs, Sent(w.copies, a.elem.Form(), inner));
  }

  method WriteMap(m: MapColumn, w: Writer)
    requires m.Valid() && w.Valid() && w !in m.repr && AllWords(m.shape, m.State())
    modifies w
    ensures w.Valid() && w.Pending() == old(w.Pending()) + Sent(w.copies, m.shape, m.State())
    decreases m.shape, 0
  {
    ghost var before, offs := w.Pending(), SentOffsets(w.copies, m.offsets);
    ghost var ks := Sent(w.copies, m.keys.Form(), m.keys.State());
    ghost var vs := Sent(w.copies, m.values.Form(), m.values.State());
    WriteUVarInts(w, m.offsets);
    WriteFirst(m.keys, m.values, w);
    WriteColumn(m.values, w);
    Assoc(before + offs, ks, vs);
    Assoc(before, offs, ks + vs);
  }

  /** Writing one column leaves the other as it is. */
  method WriteFirst(c: Column, ghost other: Column, w: Writer)
    requires c.Valid() && w.Valid() && w !in c.Repr() && AllWords(c.Form(), c.State())
    requires other.Valid() && w !in other.Repr()
    modifies w
    ensures w.Valid() && w.Pending() == old(w.Pending()) + Sent(w.copies, c.Form(), c.State())
    ensures c.State() == old(c.State()) && other.Valid() && other.State() == old(other.State())
    decreases c.Form(), 2
  {
    WriteColumn(c, w);
  }

  method WriteNullable(c: Nullable, w: Writer)
    requires c.Valid() && w.Valid() && w !in c.values.Repr() && AllWords(c.values.Form(), c.values.State())
    modifies w
    ensures w.Valid()
    ensures w.Pending()
         == old(w.Pending()) + (PutNulls(c.nulls) + Sent(w.copies, c.values.Form(), c.values.State()))
  {
    WriteBehind(c.values, w, PutNulls(c.nulls));
  }

  /** The bytes, and then the column. */
  method WriteBehind(c: Column, w: Writer, s: seq<byte>)
    requires c.Valid() && w.Valid() && w !in c.Repr() && AllWords(c.Form(), c.State())
    modifies w
    ensures w.Valid() && w.Pending() == old(w.Pending()) + (s + Sent(w.copies, c.Form(), c.State()))
  {
    ghost var before, body := w.Pending(), Sent(w.copies, c.Form(), c.State());
    ChainFirst(c, w, s);
    WriteColumn(c, w);
    Assoc(before, s, body);
  }

  method ChainFirst(ghost c: Column, w: Writer, s: seq<byte>)
    requires c.Valid() && w.Valid() && w !in c.Repr()
    modifies w
    ensures w.Valid() && w.Pending() == old(w.Pending()) + s
    ensures c.Valid() && c.State() == old(c.State())
  {
    ghost var inner := c.State();
    ChainMore(w, s);
    assert c.State() == inner;
  }

  /** No chunk is a slice of an array in repr. */
  ghost predicate Beside(chunks: seq<Chunk>, repr: set<object>) {
    forall i :: 0 <= i < |chunks| && chunks[i].Kept? ==> chunks[i].buf !in repr
  }

  /** Encodes into a buffer of the writer's own, so that it is as EncodeColumn writes it in any case. */
  method WriteLowCardinality(c: LowCardinalityColumn, w: Writer)
    requires c.Valid() && ViewOk(c.State()) && |c.dict| <= MAX_INT && |View(c.State())| <= MAX_INT
    requires w.Valid() && w !in c.values.Repr() && Beside(w.chunks, c.values.Repr())
    modifies w, c, c.values.Repr()
    ensures c.Valid() && c.State() == Expand(old(c.State()))
    ensures w.Valid() && AllTyped(c.k, View(old(c.State())))
    ensures w.Pending() == old(w.Pending()) + LCEncode(c.k, View(old(c.State())))
  {
    ghost var before, rows := w.chunks, View(c.State());
    var s := BlockBytes(c, rows);
    FlushedSame(before);
    ChainBeside(w, c, s);
  }

  /** ChainMore, which leaves the column as it is. */
  method ChainBeside(w: Writer, c: LowCardinalityColumn, s: seq<byte>)
    requires c.Valid() && w.Valid() && w !in c.values.Repr()
    modifies w
    ensures w.Valid() && w.Pending() == old(w.Pending()) + s
    ensures c.Valid() && c.State() == old(c.State())
  {
    ghost var inner := c.values.State();
    ChainMore(w, s);
    assert c.values.State() == inner;
  }

  method BlockBytes(c: LowCardinalityColumn, ghost rows: seq<Value>) returns (s: seq<byte>)
    requires c.Valid() && ViewOk(c.State()) && |c.dict| <= MAX_INT && rows == View(c.State()) && |rows| <= MAX_INT
    modifies c, c.values.Repr()
    ensures c.Valid() && c.State() == Expand(old(c.State()))
    ensures AllTyped(c.k, rows) && s == LCEncode(c.k, rows)
  {
    var b := new Buffer();
    assert b.buf == [];
    c.EncodeColumn(b);
    s := b.buf;
    assert [] + s == s;
  }
}
