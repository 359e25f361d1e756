/** Staging a NAR body: the stream's pieces are cut into blobs of two mebibytes as they arrive. */
module NarStaging {
  import opened Manifests
  import opened Grouping
  import opened Reader
  import opened FileTrees
  import opened FileBuilds

  function ComponentOf(c: Codec, chunks: seq<Bytes>, i: nat): Component
    requires i < |chunks|
  {
    Component(i, c.digest(chunks[i]), |chunks[i]|)
  }

  function ComponentsOf(c: Codec, chunks: seq<Bytes>): seq<Component> {
    seq(|chunks|, i requires 0 <= i < |chunks| => ComponentOf(c, chunks, i))
  }

  /** Every chunk is on disk under its digest. */
  ghost predicate OnDisk(c: Codec, disk: Store, chunks: seq<Bytes>) {
    forall i :: 0 <= i < |chunks| ==> c.digest(chunks[i]) in disk && disk[c.digest(chunks[i])] == chunks[i]
  }

  lemma ComponentsSnoc(c: Codec, chunks: seq<Bytes>, chunk: Bytes)
    ensures ComponentsOf(c, chunks + [chunk]) == ComponentsOf(c, chunks) + [Component(|chunks|, c.digest(chunk), |chunk|)]
  {
  }

  /** Copy a part to its place in the buffer. */
  method Set(buffer: array<byte>, offset: nat, part: Bytes)
    requires offset + |part| <= buffer.Length
    modifies buffer
    ensures buffer[..offset + |part|] == old(buffer[..offset]) + part
  {
    var j := 0;
    while j < |part|
      invariant 0 <= j <= |part|
      invariant buffer[..offset + j] == old(buffer[..offset]) + part[..j]
    {
      buffer[offset + j] := part[j];
      assert part[..j + 1] == part[..j] + [part[j]];
      assert buffer[..offset + j + 1] == buffer[..offset + j] + [part[j]];
      j := j + 1;
    }
    assert part[..j] == part;
  }

  /** Copy the buffered parts into one buffer. */
  method Join(parts: seq<Bytes>, size: nat) returns (bytes: Bytes)
    requires size == |Concat(parts)|
    ensures bytes == Concat(parts)
  {
    var buffer := new byte[size](_ => 0);
    var offset, i := 0, 0;
    assert parts[..0] == [];
    while i < |parts|
      invariant 0 <= i <= |parts|
      invariant offset == |Concat(parts[..i])| <= size
      invariant buffer[..offset] == Concat(parts[..i])
    {
      ConcatSplit(parts, i);
      Set(buffer, offset, parts[i]);
      offset := offset + |parts[i]|;
      i := i + 1;
    }
    assert parts[..i] == parts;
    assert buffer[..] == buffer[..size];
    bytes := buffer[..];
  }

  lemma ConcatSplit<T>(ss: seq<seq<T>>, i: nat)
    requires i < |ss|
    ensures Concat(ss[..i + 1]) == Concat(ss[..i]) + ss[i]
    ensures |Concat(ss[..i + 1])| <= |Concat(ss)|
  {
    ConcatSnoc(ss[..i], ss[i]);
    assert ss[..i + 1] == ss[..i] + [ss[i]];
    ConcatAppend(ss[..i + 1], ss[i + 1..]);
    assert ss == ss[..i + 1] + ss[i + 1..];
  }

  /** The whole of `body` is recorded. */
  ghost predicate Recorded(c: Codec, disk: Store, components: seq<Component>, body: Bytes) {
    components == ComponentsOf(c, Chunks(body)) && OnDisk(c, disk, Chunks(body))
  }

  ghost predicate Accepted(refuses: (nat, Bytes) -> bool, body: Bytes) {
    forall i :: 0 <= i < |Chunks(body)| ==> !refuses(i, Chunks(body)[i])
  }

  /** What has been read is whole chunks, recorded, and a rest of at most one chunk, buffered. */
  ghost predicate Cut(c: Codec, refuses: (nat, Bytes) -> bool, disk: Store, components: seq<Component>, rest: Bytes, body: Bytes) {
    && |rest| <= |body| && rest == body[|body| - |rest|..] && |rest| <= FILE_CHUNK_BYTES
    && (|body| - |rest|) % FILE_CHUNK_BYTES == 0
    && Recorded(c, disk, components, body[..|body| - |rest|])
    && Accepted(refuses, body[..|body| - |rest|])
  }

  lemma CutMore(c: Codec, refuses: (nat, Bytes) -> bool, disk: Store, components: seq<Component>, rest: Bytes, body: Bytes, part: Bytes)
    requires Cut(c, refuses, disk, components, rest, body) && |rest| + |part| <= FILE_CHUNK_BYTES
    ensures Cut(c, refuses, disk, components, rest + part, body + part)
  {
    var n := |body| - |rest|;
    assert (body + part)[n..] == body[n..] + part && (body + part)[..n] == body[..n];
  }

  /** The buffered rest is the next chunk. */
  lemma RestIsChunk(body: Bytes, n: nat)
    requires n < |body| <= n + FILE_CHUNK_BYTES && n % FILE_CHUNK_BYTES == 0
    ensures Chunks(body) == Chunks(body[..n]) + [body[n..]]
  {
    GroupsAppend(body[..n], body[n..], FILE_CHUNK_BYTES);
    assert body == body[..n] + body[n..];
  }

  lemma FlushRecords(c: Codec, refuses: (nat, Bytes) -> bool, disk: Store, components: seq<Component>, rest: Bytes, body: Bytes)
    requires Faithful(c) && Addressed(c, disk) && Cut(c, refuses, disk, components, rest, body) && rest != [] && !refuses(|components|, rest)
    ensures var after := disk[c.digest(rest) := rest];
      && Recorded(c, after, components + [Component(|components|, c.digest(rest), |rest|)], body)
      && Accepted(refuses, body) && Addressed(c, after) && Kept(disk, after)
  {
    var n := |body| - |rest|;
    RestIsChunk(body, n);
    ComponentsSnoc(c, Chunks(body[..n]), rest);
  }

  /** A chunk refused on the way is one of the body's. */
  lemma RefusedChunk(refuses: (nat, Bytes) -> bool, read: Bytes, n: nat, more: Bytes)
    requires n < |read| <= n + FILE_CHUNK_BYTES && n % FILE_CHUNK_BYTES == 0 && refuses(|Chunks(read[..n])|, read[n..])
    requires |read| == n + FILE_CHUNK_BYTES || more == []
    ensures !Accepted(refuses, read + more)
  {
    RestIsChunk(read, n);
    var at := |Chunks(read[..n])|;
    if more == [] {
      assert read + more == read;
      assert Chunks(read)[at] == read[n..];
    } else {
      ModAdd(n, FILE_CHUNK_BYTES);
      GroupsAppend(read, more, FILE_CHUNK_BYTES);
      assert Chunks(read + more)[at] == read[n..];
    }
  }

  /** Nothing on disk goes away or changes. */
  ghost predicate Kept(a: Store, b: Store) {
    forall h :: h in a ==> h in b && b[h] == a[h]
  }

  /** The state of one upload. */
  class Staging {
    const c: Codec
    /** Whether the blob store has no room when the numbered blob is admitted. */
    const refuses: (nat, Bytes) -> bool
    var disk: Store
    var parts: seq<Bytes>
    var buffered: nat
    var total: nat
    var components: seq<Component>

    constructor (c: Codec, refuses: (nat, Bytes) -> bool, disk: Store)
      ensures this.c == c && this.refuses == refuses && this.disk == disk
      ensures parts == [] && buffered == 0 && total == 0 && components == []
    {
      this.c, this.refuses, this.disk := c, refuses, disk;
      parts, buffered, total, components := [], 0, 0, [];
    }

    /** `body` has been read so far. */
    ghost predicate Holds(body: Bytes)
      reads this
    {
      && Faithful(c) && Addressed(c, disk)
      && buffered == |Concat(parts)| && total == |body|
      && Cut(c, refuses, disk, components, Concat(parts), body)
    }

    /** `flush`: admit the buffered bytes as one blob. */
    method Flush(ghost body: Bytes) returns (ok: bool)
      requires Holds(body)
      modifies this`disk, this`parts, this`buffered, this`components
      ensures ok <==> old(buffered) == 0 || !refuses(|Chunks(body[..|body| - old(buffered)])|, body[|body| - old(buffered)..])
      ensures ok ==> buffered == 0 && Recorded(c, disk, components, body) && Accepted(refuses, body)
      ensures ok && (old(buffered) == 0 || old(buffered) == FILE_CHUNK_BYTES) ==> Holds(body)
      ensures Kept(old(disk), disk)
    {
      hide Recorded, Accepted, Faithful, Addressed;
      if buffered == 0 {
        assert body[..|body|] == body;
        return true;
      }
      var bytes := Join(parts, buffered);
      parts, buffered := [], 0;
      assert |components| == |Chunks(body[..|body| - |bytes|])| by { RecordedCount(c, disk, components, body[..|body| - |bytes|]); }
      if refuses(|components|, bytes) {
        return false;
      }
      FlushRecords(c, refuses, disk, components, bytes, body);
      disk := disk[c.digest(bytes) := bytes];
      components := components + [Component(|components|, c.digest(bytes), |bytes|)];
      FullyCut(c, refuses, disk, components, body, |body| - |bytes|);
      ok := true;
    }

    method Buffer(part: Bytes, ghost body: Bytes)
      requires Holds(body) && buffered + |part| <= FILE_CHUNK_BYTES
      modifies this`parts, this`buffered, this`total
      ensures Holds(body + part) && buffered == old(buffered) + |part|
    {
      hide Cut, Faithful, Addressed;
      CutMore(c, refuses, disk, components, Concat(parts), body, part);
      ConcatSnoc(parts, part);
      parts, buffered, total := parts + [part], buffered + |part|, total + |part|;
    }

    /** Take one piece of the stream, in slices that fill the buffer up to a chunk. */
    method TakePiece(piece: Bytes, ceiling: nat, ghost before: Bytes, ghost more: Bytes) returns (ok: bool)
      requires Holds(before) && buffered < FILE_CHUNK_BYTES && |before| <= ceiling
      modifies this
      ensures ok ==> Holds(before + piece) && buffered < FILE_CHUNK_BYTES && |before + piece| <= ceiling
      ensures !ok ==> |before + piece| > ceiling || !Accepted(refuses, before + piece + more)
      ensures Kept(old(disk), disk)
    {
      hide Cut, Recorded, Accepted, Faithful, Addressed, Concat;
      var offset := 0;
      assert before + piece[..0] == before;
      while offset < |piece|
        invariant 0 <= offset <= |piece|
        invariant Holds(before + piece[..offset]) && buffered < FILE_CHUNK_BYTES && |before + piece[..offset]| <= ceiling
        invariant Kept(old(disk), disk)
      {
        var length := if FILE_CHUNK_BYTES - buffered < |piece| - offset then FILE_CHUNK_BYTES - buffered else |piece| - offset;
        var part := piece[offset..offset + length];
        ghost var read := before + piece[..offset];
        SliceStep(before, piece, offset, length, more);
        Buffer(part, read);
        if total > ceiling {
          return false;
        }
        offset := offset + length;
        read := before + piece[..offset];
        if buffered == FILE_CHUNK_BYTES {
          CutBounds(c, refuses, disk, components, Concat(parts), read);
          var flushed := Flush(read);
          if !flushed {
            RefusedChunk(refuses, read, |read| - FILE_CHUNK_BYTES, piece[offset..] + more);
            return false;
          }
        }
      }
      assert piece[..offset] == piece;
      ok := true;
    }

    /** Read the stream to its end: it goes through exactly for a non-empty body within the ceiling
        of which no chunk is refused, and then records what cutting the whole body would. */
    method Stage(pieces: seq<Bytes>, ceiling: nat) returns (ok: bool)
      requires Faithful(c) && Addressed(c, disk) && parts == [] && buffered == 0 && total == 0 && components == []
      modifies this
      ensures ok <==> Concat(pieces) != [] && |Concat(pieces)| <= ceiling && Accepted(refuses, Concat(pieces))
      ensures ok ==> Recorded(c, disk, components, Concat(pieces)) && total == |Concat(pieces)|
      ensures Kept(old(disk), disk)
    {
      hide Cut, Recorded, Accepted, Faithful, Addressed, Chunks;
      ghost var body := Concat(pieces);
      var i := 0;
      assert pieces[..0] == [];
      CutNothing(c, refuses, disk);
      while i < |pieces|
        invariant 0 <= i <= |pieces|
        invariant Holds(Concat(pieces[..i])) && buffered < FILE_CHUNK_BYTES && |Concat(pieces[..i])| <= ceiling
        invariant Kept(old(disk), disk)
      {
        ConcatSplit(pieces, i);
        ConcatAppend(pieces[..i + 1], pieces[i + 1..]);
        assert pieces == pieces[..i + 1] + pieces[i + 1..];
        var taken := TakePiece(pieces[i], ceiling, Concat(pieces[..i]), Concat(pieces[i + 1..]));
        if !taken {
          return false;
        }
        i := i + 1;
      }
      assert pieces[..i] == pieces;
      CutBounds(c, refuses, disk, components, Concat(parts), body);
      ghost var left := buffered;
      var flushed := Flush(body);
      if !flushed {
        RefusedChunk(refuses, body, |body| - left, []);
        assert body + [] == body;
        return false;
      }
      ok := components != [];
      ComponentsEmpty(c, disk, components, body);
    }
  }

  lemma CutNothing(c: Codec, refuses: (nat, Bytes) -> bool, disk: Store)
    ensures Cut(c, refuses, disk, [], [], [])
  {
    assert Chunks([]) == [] && ComponentsOf(c, []) == [];
  }

  lemma SliceStep(before: Bytes, piece: Bytes, offset: nat, length: nat, more: Bytes)
    requires offset + length <= |piece|
    ensures before + piece[..offset] + piece[offset..offset + length] == before + piece[..offset + length]
    ensures before + piece + more == before + piece[..offset + length] + (piece[offset + length..] + more)
  {
    assert piece == piece[..offset + length] + piece[offset + length..];
  }

  lemma CutBounds(c: Codec, refuses: (nat, Bytes) -> bool, disk: Store, components: seq<Component>, rest: Bytes, body: Bytes)
    requires Cut(c, refuses, disk, components, rest, body)
    ensures |rest| <= |body| && |rest| <= FILE_CHUNK_BYTES
    ensures rest == body[|body| - |rest|..] && (|body| - |rest|) % FILE_CHUNK_BYTES == 0
  {
  }

  lemma FullyCut(c: Codec, refuses: (nat, Bytes) -> bool, disk: Store, components: seq<Component>, body: Bytes, n: nat)
    requires Recorded(c, disk, components, body) && Accepted(refuses, body) && n % FILE_CHUNK_BYTES == 0
    ensures |body| == n + FILE_CHUNK_BYTES ==> Cut(c, refuses, disk, components, [], body)
  {
    ModAdd(n, FILE_CHUNK_BYTES);
    assert body[..|body|] == body && body[|body|..] == [];
  }

  lemma RecordedCount(c: Codec, disk: Store, components: seq<Component>, body: Bytes)
    requires Recorded(c, disk, components, body)
    ensures |components| == |Chunks(body)|
  {
  }

  lemma ComponentsEmpty(c: Codec, disk: Store, components: seq<Component>, body: Bytes)
    requires Recorded(c, disk, components, body)
    ensures components == [] <==> body == []
  {
    ConcatGroups(body, FILE_CHUNK_BYTES);
  }

  /** The recorded components are what the writer accepts for the file, and hold its bytes: it
      builds the same link from them as from reading the body. */
  lemma StagedIsFile(c: Codec, disk: Store, components: seq<Component>, body: Bytes)
    requires Recorded(c, disk, components, body)
    ensures WellCut(disk, components)
    ensures BodyOf(disk, FromComponents(components)) == BodyOf(disk, FromFile(body))
  {
    var chunks := Chunks(body);
    GroupSizes(body, FILE_CHUNK_BYTES);
    ConcatGroups(body, FILE_CHUNK_BYTES);
    assert ComponentBytes(disk, components) == chunks;
  }
}
