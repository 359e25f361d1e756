/** `buildFile`: from a file's bytes, or from its already stored components, to its link. */
module FileBuilds {
  import opened Manifests
  import opened Shapes
  import opened Grouping
  import opened Tables
  import opened Reader
  import opened FileTrees
  import opened Reachability
  import opened Writer

  datatype Component = Component(index: nat, hash: Hash, size: nat)

  datatype Source = FromFile(body: Bytes) | FromComponents(parts: seq<Component>)

  /** Blobs are filed under their digests. */
  ghost predicate Addressed(c: Codec, disk: Store) {
    forall h :: h in disk ==> c.digest(disk[h]) == h
  }

  /** The bytes the listed components hold on disk. */
  ghost function ComponentBytes(disk: Store, parts: seq<Component>): seq<Bytes> {
    seq(|parts|, i requires 0 <= i < |parts| => if parts[i].hash in disk then disk[parts[i].hash] else [])
  }

  ghost function BodyOf(disk: Store, source: Source): Bytes {
    match source
    case FromFile(body) => body
    case FromComponents(parts) => Concat(ComponentBytes(disk, parts))
  }

  /** What a file becomes, whichever way its bytes were delivered. */
  ghost predicate BuiltFile(c: Codec, k: nat, inventory: Store, refs: set<Ref>, body: Bytes, e: Entry)
    requires k >= 2
  {
    && e == FileEntry(FileHash(c, k, body), |body|, FileKind(body))
    && |body| <= MAX_SAFE && FileStored(c, k, inventory, body) && Ref(e.hash, e.kind) in refs
  }

  /** The chunks taken so far, as registered. */
  ghost predicate Taken(c: Codec, inventory: Store, refs: set<Ref>, rows: seq<Link>, chunks: seq<Bytes>) {
    && rows == ChunkLinks(c, chunks)
    && (forall i :: 0 <= i < |chunks| ==> HoldsBlob(c, inventory, chunks[i]))
    && forall i :: 0 <= i < |rows| ==> rows[i].bounds.None? && RefOf(rows[i]) in refs
  }

  lemma TakenSnoc(c: Codec, a: Store, b: Store, refs: set<Ref>, refs': set<Ref>, rows: seq<Link>, chunks: seq<Bytes>, chunk: Bytes)
    requires Taken(c, a, refs, rows, chunks) && Extends(a, b) && refs <= refs'
    requires HoldsBlob(c, b, chunk) && Ref(c.digest(chunk), Raw) in refs'
    ensures Taken(c, b, refs', rows + [ChunkLink(c, chunk)], chunks + [chunk])
  {
    assert ChunkLinks(c, chunks + [chunk]) == rows + [ChunkLink(c, chunk)];
  }

  /** All of these blobs are in the store. */
  ghost predicate HoldsAll(c: Codec, store: Store, chunks: seq<Bytes>) {
    forall i :: 0 <= i < |chunks| ==> HoldsBlob(c, store, chunks[i])
  }

  lemma ChunkHeld(c: Codec, store: Store, body: Bytes, offset: nat, end: nat)
    requires HoldsAll(c, store, Chunks(body))
    requires offset < end <= |body| && offset % FILE_CHUNK_BYTES == 0 && end - offset <= FILE_CHUNK_BYTES
    requires end - offset == FILE_CHUNK_BYTES || end == |body|
    ensures HoldsBlob(c, store, body[offset..end])
  {
    hide HoldsBlob, Groups;
    GroupAmong(body, offset, end, FILE_CHUNK_BYTES);
    var i :| 0 <= i < |Chunks(body)| && Chunks(body)[i] == body[offset..end];
  }

  /** Read the file two mebibytes at a time. */
  method ReadChunks(run: WriterRun, body: Bytes) returns (r: Result<seq<Link>>)
    requires run.Valid()
    modifies run
    ensures run.Valid() && Extends(old(run.inventory), run.inventory) && old(run.refs) <= run.refs
    ensures r.Ok? ==> Taken(run.c, run.inventory, run.refs, r.value, Chunks(body))
    ensures old(run.Fits()) && HoldsAll(run.c, run.plan, Chunks(body)) ==> r.Ok? && run.Fits()
  {
    hide Taken, HoldsBlob, HoldsAll, Extends, WriterRun.Valid, WriterRun.Fits;
    ghost var roomy := run.Fits() && HoldsAll(run.c, run.plan, Chunks(body));
    var rows: seq<Link> := [];
    ghost var chunks: seq<Bytes> := [];
    var offset := 0;
    TakenNone(run.c, run.inventory, run.refs);
    ExtendsSelf(run.inventory);
    while offset < |body|
      invariant run.Valid() && Extends(old(run.inventory), run.inventory) && old(run.refs) <= run.refs
      invariant offset <= |body| && (offset < |body| ==> offset % FILE_CHUNK_BYTES == 0)
      invariant chunks == Chunks(body[..offset])
      invariant Taken(run.c, run.inventory, run.refs, rows, chunks)
      invariant roomy ==> run.Fits()
    {
      var used := if |body| - offset < FILE_CHUNK_BYTES then |body| - offset else FILE_CHUNK_BYTES;
      var chunk := body[offset..offset + used];
      ghost var before, refs := run.inventory, run.refs;
      if roomy { ChunkHeld(run.c, run.plan, body, offset, offset + used); }
      var persisted := run.Persist(chunk, Raw);
      ExtendsTrans(old(run.inventory), before, run.inventory);
      var hash :- persisted;
      TakenSnoc(run.c, before, run.inventory, refs, run.refs, rows, chunks, chunk);
      NextSnoc(body, offset, offset + used, FILE_CHUNK_BYTES);
      rows := rows + [Link(hash, used, Raw, None, None)];
      chunks := chunks + [chunk];
      offset := offset + used;
    }
    assert body[..offset] == body;
    return Ok(rows);
  }

  lemma TakenNone(c: Codec, inventory: Store, refs: set<Ref>)
    ensures Taken(c, inventory, refs, [], [])
  {
    assert ChunkLinks(c, []) == [];
  }

  lemma ExtendsSelf(a: Store)
    ensures Extends(a, a)
  {
  }

  /** What the writer demands of a component list before it trusts it. */
  ghost predicate WellCut(disk: Store, parts: seq<Component>) {
    && (forall i :: 0 <= i < |parts| ==>
         && parts[i].index == i && 0 < parts[i].size <= FILE_CHUNK_BYTES
         && parts[i].hash in disk && |disk[parts[i].hash]| == parts[i].size)
    && forall i :: 0 <= i < |parts| - 1 ==> parts[i].size == FILE_CHUNK_BYTES
  }

  /** Accept components only in order, available, and cut like a file would be. */
  method TakeComponents(run: WriterRun, disk: Store, parts: seq<Component>) returns (r: Result<seq<Link>>)
    requires run.Valid() && Addressed(run.c, disk)
    modifies run
    ensures run.Valid() && Extends(old(run.inventory), run.inventory) && old(run.refs) <= run.refs
    ensures r.Ok? ==> WellCut(disk, parts)
    ensures r.Ok? ==> Taken(run.c, run.inventory, run.refs, r.value, ComponentBytes(disk, parts))
    ensures old(run.Fits()) && WellCut(disk, parts) && HoldsAll(run.c, run.plan, ComponentBytes(disk, parts)) ==> r.Ok? && run.Fits()
  {
    hide Taken, HoldsBlob, HoldsAll, WellCut, ComponentBytes, Extends, WriterRun.Valid, WriterRun.Fits;
    ghost var roomy := run.Fits() && WellCut(disk, parts) && HoldsAll(run.c, run.plan, ComponentBytes(disk, parts));
    var rows: seq<Link> := [];
    TakenNone(run.c, run.inventory, run.refs);
    ExtendsSelf(run.inventory);
    NothingCut(disk, parts);
    var previous: Option<nat> := None;
    for i := 0 to |parts|
      invariant run.Valid() && Extends(old(run.inventory), run.inventory) && old(run.refs) <= run.refs
      invariant WellCut(disk, parts[..i])
      invariant previous == if i == 0 then None else Some(parts[i - 1].size)
      invariant Taken(run.c, run.inventory, run.refs, rows, ComponentBytes(disk, parts[..i]))
      invariant roomy ==> run.Fits()
    {
      var part := parts[i];
      OneMoreCut(run.c, run.plan, disk, parts, i);
      if part.index != i {
        return Err(ComponentsChanged);
      }
      if part.size == 0 || part.size > FILE_CHUNK_BYTES || (previous.Some? && previous.value != FILE_CHUNK_BYTES) {
        return Err(ComponentsChanged);
      }
      if part.hash !in disk || |disk[part.hash]| != part.size {
        return Err(ComponentUnavailable);
      }
      ghost var before, refs := run.inventory, run.refs;
      var bytes := disk[part.hash];
      var persisted := run.Persist(bytes, Raw);
      ExtendsTrans(old(run.inventory), before, run.inventory);
      var hash :- persisted;
      TakenSnoc(run.c, before, run.inventory, refs, run.refs, rows, ComponentBytes(disk, parts[..i]), bytes);
      rows := rows + [Link(part.hash, part.size, Raw, None, None)];
      previous := Some(part.size);
    }
    assert parts[..|parts|] == parts;
    return Ok(rows);
  }

  lemma NothingCut(disk: Store, parts: seq<Component>)
    ensures WellCut(disk, parts[..0]) && ComponentBytes(disk, parts[..0]) == []
  {
  }

  /** What one more component has to be like. */
  ghost predicate CutFits(disk: Store, parts: seq<Component>, i: nat)
    requires i < |parts|
  {
    && parts[i].index == i && 0 < parts[i].size <= FILE_CHUNK_BYTES
    && parts[i].hash in disk && |disk[parts[i].hash]| == parts[i].size
    && (i > 0 ==> parts[i - 1].size == FILE_CHUNK_BYTES)
  }

  lemma OneMoreCut(c: Codec, plan: Store, disk: Store, parts: seq<Component>, i: nat)
    requires i < |parts| && WellCut(disk, parts[..i])
    ensures WellCut(disk, parts[..i + 1]) <==> CutFits(disk, parts, i)
    ensures WellCut(disk, parts) ==> CutFits(disk, parts, i)
    ensures CutFits(disk, parts, i) ==>
      && ComponentBytes(disk, parts[..i + 1]) == ComponentBytes(disk, parts[..i]) + [disk[parts[i].hash]]
      && (HoldsAll(c, plan, ComponentBytes(disk, parts)) ==> HoldsBlob(c, plan, disk[parts[i].hash]))
  {
    hide HoldsBlob;
    if WellCut(disk, parts[..i + 1]) {
      assert parts[..i + 1][i] == parts[i];
      if i > 0 { assert parts[..i + 1][i - 1] == parts[i - 1]; }
    }
    if CutFits(disk, parts, i) {
      forall j | 0 <= j < i ensures parts[..i + 1][j] == parts[..i][j] {
      }
      assert ComponentBytes(disk, parts)[i] == disk[parts[i].hash];
    }
  }

  /** Components cut like this are the chunks of the bytes they hold. */
  lemma ComponentsAreChunks(disk: Store, parts: seq<Component>)
    requires WellCut(disk, parts)
    ensures Chunks(Concat(ComponentBytes(disk, parts))) == ComponentBytes(disk, parts)
  {
    CutIsGroups(ComponentBytes(disk, parts), FILE_CHUNK_BYTES);
  }

  lemma SumTaken(c: Codec, inventory: Store, refs: set<Ref>, rows: seq<Link>, body: Bytes)
    requires Taken(c, inventory, refs, rows, Chunks(body))
    ensures SumSizes(rows) == |body|
  {
    SumChunkLinks(c, Chunks(body));
    ConcatGroups(body, FILE_CHUNK_BYTES);
  }

  lemma OneChunk(c: Codec, inventory: Store, refs: set<Ref>, rows: seq<Link>, body: Bytes)
    requires Taken(c, inventory, refs, rows, Chunks(body)) && |rows| == 1
    ensures Chunks(body) == [body] && HoldsBlob(c, inventory, body) && RefOf(rows[0]) == Ref(c.digest(body), Raw) && RefOf(rows[0]) in refs
  {
    ConcatGroups(body, FILE_CHUNK_BYTES);
    assert Chunks(body)[1..] == [];
    assert Concat(Chunks(body)) == Chunks(body)[0] + [];
  }

  lemma NoChunk(body: Bytes)
    requires Chunks(body) == []
    ensures body == []
  {
    ConcatGroups(body, FILE_CHUNK_BYTES);
  }

  lemma ChunksExtend(c: Codec, a: Store, b: Store, refs: set<Ref>, rows: seq<Link>, chunks: seq<Bytes>)
    requires Taken(c, a, refs, rows, chunks) && Extends(a, b)
    ensures forall i :: 0 <= i < |chunks| ==> HoldsBlob(c, b, chunks[i])
  {
  }

  /** Register the chunks of a file, whichever way they are delivered. */
  method TakeRows(run: WriterRun, disk: Store, source: Source) returns (r: Result<seq<Link>>)
    requires run.Valid() && Addressed(run.c, disk)
    modifies run
    ensures run.Valid() && Extends(old(run.inventory), run.inventory) && old(run.refs) <= run.refs
    ensures r.Ok? ==> Taken(run.c, run.inventory, run.refs, r.value, Chunks(BodyOf(disk, source)))
    ensures r.Ok? && source.FromComponents? ==> WellCut(disk, source.parts)
    ensures old(run.Fits()) && (source.FromComponents? ==> WellCut(disk, source.parts))
              && HoldsAll(run.c, run.plan, Chunks(BodyOf(disk, source)))
            ==> r.Ok? && run.Fits()
  {
    hide WriterRun.Fits, WriterRun.Valid, HoldsAll, Taken, Extends, Groups, Concat, WellCut, ComponentBytes, Addressed;
    match source {
      case FromFile(bytes) =>
        r := ReadChunks(run, bytes);
      case FromComponents(parts) =>
        if WellCut(disk, parts) { ComponentsAreChunks(disk, parts); }
        r := TakeComponents(run, disk, parts);
    }
  }

  /** A file can be built from this: components, if given, are well cut, the size is right and can
      be counted, and the plan has what the file becomes. */
  ghost predicate Buildable(c: Codec, k: nat, plan: Store, disk: Store, source: Source, size: nat)
    requires k >= 2
  {
    && (source.FromComponents? ==> WellCut(disk, source.parts))
    && size == |BodyOf(disk, source)| <= MAX_SAFE && FileStored(c, k, plan, BodyOf(disk, source))
  }

  lemma StoredChunks(c: Codec, k: nat, store: Store, body: Bytes)
    requires k >= 2 && FileStored(c, k, store, body)
    ensures HoldsAll(c, store, Chunks(body))
  {
    hide HoldsBlob, Present;
    if |Chunks(body)| == 1 {
      ConcatGroups(body, FILE_CHUNK_BYTES);
      assert Chunks(body)[1..] == [];
      assert Concat(Chunks(body)) == Chunks(body)[0] + [];
    }
  }

  lemma StoredShape(c: Codec, k: nat, plan: Store, body: Bytes, rows: seq<Link>)
    requires k >= 2 && FileStored(c, k, plan, body) && |body| <= MAX_SAFE && |Chunks(body)| > 1
    requires rows == ChunkLinks(c, Chunks(body)) && SumSizes(rows) == |body|
    ensures Foreseen(c, FileTree, plan, Collapse(rows, k))
  {
    hide HoldsBlob, Present, Collapse, Groups;
    FlattenCollapse(rows, k);
  }

  /** `buildFile`: the same link, whether the bytes come from a file or from components. */
  method BuildFile(run: WriterRun, disk: Store, source: Source, size: nat) returns (r: Result<Entry>)
    requires run.Valid() && Addressed(run.c, disk)
    modifies run
    ensures run.Valid() && Extends(old(run.inventory), run.inventory) && old(run.refs) <= run.refs
    ensures r.Ok? ==> Buildable(run.c, run.k, run.inventory, disk, source, size)
    ensures r.Ok? ==> BuiltFile(run.c, run.k, run.inventory, run.refs, BodyOf(disk, source), r.value)
    ensures old(run.Fits()) && Buildable(run.c, run.k, run.plan, disk, source, size) ==> r.Ok? && run.Fits()
  {
    hide WriterRun.Fits, HoldsAll, Foreseen, Taken, HoldsBlob, Extends, Groups, Concat, Collapse, NodeHash, WellCut, Present, Flatten, ClosedRefs, Ledger;
    ghost var body := BodyOf(disk, source);
    ghost var roomy := run.Fits() && Buildable(run.c, run.k, run.plan, disk, source, size);
    if roomy { StoredChunks(run.c, run.k, run.plan, body); }
    var rows :- TakeRows(run, disk, source);
    SumTaken(run.c, run.inventory, run.refs, rows, body);
    var observed :- WriterRun.LogicalSize(rows);
    if observed != size {
      return Err(SizeChanged);
    }
    ghost var before := run.inventory;
    TakenCount(run.c, before, run.refs, rows, body);
    if |rows| == 0 {
      NoChunk(body);
      var persisted := run.Persist([], Raw);
      ExtendsTrans(old(run.inventory), before, run.inventory);
      var hash :- persisted;
      return Ok(FileEntry(hash, 0, Raw));
    } else if |rows| == 1 {
      OneChunk(run.c, before, run.refs, rows, body);
      return Ok(FileEntry(rows[0].hash, observed, Raw));
    } else {
      TakenPlain(run.c, before, run.refs, rows, body);
      ghost var refs := run.refs;
      if roomy { StoredShape(run.c, run.k, run.plan, body, rows); }
      var collapsed := run.CollapseRows(FileTree, rows);
      ExtendsTrans(old(run.inventory), before, run.inventory);
      var built :- collapsed;
      ChunksExtend(run.c, before, run.inventory, refs, rows, Chunks(body));
      return Ok(FileEntry(built.hash, built.size, built.kind));
    }
  }

  lemma TakenCount(c: Codec, inventory: Store, refs: set<Ref>, rows: seq<Link>, body: Bytes)
    requires Taken(c, inventory, refs, rows, Chunks(body))
    ensures |rows| == |Chunks(body)|
  {
  }

  lemma TakenPlain(c: Codec, inventory: Store, refs: set<Ref>, rows: seq<Link>, body: Bytes)
    requires Taken(c, inventory, refs, rows, Chunks(body))
    ensures rows == ChunkLinks(c, Chunks(body))
    ensures forall i :: 0 <= i < |rows| ==> rows[i].bounds.None? && RefOf(rows[i]) in refs
  {
  }
}
