/** Files: chunking, collapsing the chunk list, and reading it back. */
module FileTrees {
  import opened Manifests
  import opened Shapes
  import opened Grouping
  import opened Reader

  const FILE_CHUNK_BYTES: nat := 2097152

  /** The raw link of one chunk. */
  function ChunkLink(c: Codec, chunk: Bytes): Link {
    Link(c.digest(chunk), |chunk|, Raw, None, None)
  }

  function ChunkLinks(c: Codec, chunks: seq<Bytes>): seq<Link> {
    seq(|chunks|, i requires 0 <= i < |chunks| => ChunkLink(c, chunks[i]))
  }

  function Chunks(body: Bytes): seq<Bytes> {
    Groups(body, FILE_CHUNK_BYTES)
  }

  function FileShape(c: Codec, k: nat, body: Bytes): Shape
    requires k >= 2
  {
    Collapse(ChunkLinks(c, Chunks(body)), k)
  }

  /** What a directory links to for a file: the blob itself when one chunk holds it, else the
      file manifest of its chunks. */
  function FileHash(c: Codec, k: nat, body: Bytes): Hash
    requires k >= 2
  {
    if |Chunks(body)| <= 1 then c.digest(body) else NodeHash(c, FileTree, FileShape(c, k, body))
  }

  function FileKind(body: Bytes): LinkType {
    if |Chunks(body)| <= 1 then Raw else File
  }

  /** A file of at most two mebibytes is linked as the blob it is; a longer one as a manifest of pieces
      of two mebibytes, the last one possibly shorter. */
  lemma FileLinkMeaning(c: Codec, k: nat, body: Bytes)
    requires k >= 2
    ensures |body| <= 2097152 ==> FileKind(body) == Raw && FileHash(c, k, body) == c.digest(body)
    ensures |body| > 2097152 ==> FileKind(body) == File && FileHash(c, k, body) == NodeHash(c, FileTree, FileShape(c, k, body))
    ensures Concat(Chunks(body)) == body
    ensures forall i :: 0 <= i < |Chunks(body)| - 1 ==> |Chunks(body)[i]| == 2097152
    ensures forall i :: 0 <= i < |Chunks(body)| ==> 0 < |Chunks(body)[i]| <= 2097152
  {
    ConcatGroups(body, FILE_CHUNK_BYTES);
    GroupSizes(body, FILE_CHUNK_BYTES);
    hide NodeHash, FileShape;
    if |body| > 2097152 {
      assert |Chunks(body)| > 1 by { LongIsCut(body); }
    }
  }

  lemma LongIsCut(body: Bytes)
    requires |body| > FILE_CHUNK_BYTES
    ensures |Chunks(body)| > 1
  {
    var rest := Groups(body[FILE_CHUNK_BYTES..], FILE_CHUNK_BYTES);
    assert rest != [];
  }

  ghost predicate HoldsBlob(c: Codec, store: Store, b: Bytes) {
    c.digest(b) in store && store[c.digest(b)] == b
  }

  /** Everything a file needs is in the store. */
  ghost predicate FileStored(c: Codec, k: nat, store: Store, body: Bytes)
    requires k >= 2
  {
    if |Chunks(body)| <= 1 then HoldsBlob(c, store, body)
    else
      && (forall i :: 0 <= i < |Chunks(body)| ==> HoldsBlob(c, store, Chunks(body)[i]))
      && Present(c, FileTree, store, FileShape(c, k, body))
  }

  // ---- Reading ----

  datatype Plan = Planned(size: nat, chunks: seq<Link>) | PlanOverBudget | PlanFailed

  /** Flatten nested file manifests into the list of chunks, checking every declared size. */
  ghost function FilePlan(c: Codec, limit: nat, store: Store, h: Hash, depth: nat, output: nat): Plan
    decreases depth, 1, 0
  {
    if depth == 0 then PlanOverBudget
    else
      match Load(c, limit, store, h)
      case None => PlanFailed
      case Some(m) => if m.kind != File then PlanFailed else PlanLinks(c, limit, store, m.links, 0, depth, output)
  }

  ghost function PlanLinks(c: Codec, limit: nat, store: Store, links: seq<Link>, total: nat, depth: nat, output: nat): Plan
    requires depth > 0
    decreases depth, 0, |links|
  {
    if links == [] then Planned(total, [])
    else
      var child := match links[0].kind
                   case Raw => Planned(links[0].size, [links[0]])
                   case File => FilePlan(c, limit, store, links[0].hash, depth - 1, output)
                   case _ => PlanFailed;
      if !child.Planned? then child
      else if child.size != links[0].size then PlanFailed
      else if total + child.size > MAX_SAFE || total + child.size > output then PlanOverBudget
      else
        match PlanLinks(c, limit, store, links[1..], total + child.size, depth, output)
        case Planned(size, chunks) => Planned(size, child.chunks + chunks)
        case failed => failed
  }

  /** The bytes of a list of chunks, each of its declared size.  A fetch may transfer as many bytes
      as are declared, and one that may transfer none is refused. */
  ghost function Fetch(store: Store, chunks: seq<Link>): Option<Bytes> {
    if chunks == [] then Some([])
    else if chunks[0].size == 0 then None
    else if chunks[0].hash !in store || |store[chunks[0].hash]| != chunks[0].size then None
    else
      match Fetch(store, chunks[1..])
      case None => None
      case Some(rest) => Some(store[chunks[0].hash] + rest)
  }

  datatype Reply = Delivered(size: nat, kind: LinkType, body: Bytes) | NoReply(why: Outcome) | Unsupported

  /** GET of the entry a walk found. */
  ghost function Deliver(c: Codec, limit: nat, store: Store, l: Link, depth: nat, output: nat): Reply {
    match l.kind
    case Raw =>
      if l.size == 0 then NoReply(OverBudget)
      else
      (match Fetch(store, [l])
       case None => NoReply(Unavailable)
       case Some(body) => Delivered(l.size, Raw, body))
    case File =>
      (match FilePlan(c, limit, store, l.hash, depth, output)
       case PlanOverBudget => NoReply(OverBudget)
       case PlanFailed => NoReply(Unavailable)
       case Planned(size, chunks) =>
         if size != l.size then NoReply(Unavailable)
         else
           match Fetch(store, chunks)
           case None => NoReply(Unavailable)
           case Some(body) => Delivered(size, File, body))
    case _ => Unsupported
  }

  // ---- Reading what was written ----

  lemma {:induction false} SumChunkLinks(c: Codec, chunks: seq<Bytes>)
    ensures SumSizes(ChunkLinks(c, chunks)) == |Concat(chunks)|
  {
    if chunks != [] {
      SumChunkLinks(c, chunks[1..]);
      assert ChunkLinks(c, chunks)[1..] == ChunkLinks(c, chunks[1..]);
    }
  }

  lemma {:induction false} FetchChunks(c: Codec, store: Store, chunks: seq<Bytes>)
    requires forall i :: 0 <= i < |chunks| ==> HoldsBlob(c, store, chunks[i]) && chunks[i] != []
    ensures Fetch(store, ChunkLinks(c, chunks)) == Some(Concat(chunks))
  {
    if chunks != [] {
      FetchChunks(c, store, chunks[1..]);
      assert ChunkLinks(c, chunks)[1..] == ChunkLinks(c, chunks[1..]);
    }
  }

  ghost predicate AllRaw(items: seq<Link>) {
    forall i :: 0 <= i < |items| ==> items[i].kind == Raw
  }

  lemma {:induction false} PlanRaw(c: Codec, limit: nat, store: Store, items: seq<Link>, total: nat, depth: nat, output: nat)
    requires AllRaw(items) && depth > 0
    requires total + SumSizes(items) <= MAX_SAFE && total + SumSizes(items) <= output
    ensures PlanLinks(c, limit, store, items, total, depth, output) == Planned(total + SumSizes(items), items)
    decreases |items|
  {
    if items != [] {
      PlanRaw(c, limit, store, items[1..], total + items[0].size, depth, output);
      assert [items[0]] + items[1..] == items;
    }
  }

  /** A node from which the flattened chunk list can be planned. */
  ghost predicate Plannable(c: Codec, limit: nat, store: Store, s: Shape) {
    Present(c, FileTree, store, s) && Listable(FileTree, Flatten(s)) && AllRaw(Flatten(s)) && Compact(s, limit)
  }

  lemma ChildPlannable(c: Codec, limit: nat, store: Store, s: Shape, i: nat)
    requires Plannable(c, limit, store, s) && s.Inner? && i < |s.children|
    ensures Plannable(c, limit, store, s.children[i]) && Height(s.children[i]) < Height(s)
  {
    ChildListable(FileTree, s.children, i);
    HeightAllMax(s.children, i);
    forall x | 0 <= x < |Flatten(s.children[i])| ensures Flatten(s.children[i])[x].kind == Raw {
      EntryAt(s.children, i, x);
    }
  }

  lemma PlanManifest(c: Codec, limit: nat, store: Store, s: Shape, depth: nat, output: nat)
    requires Faithful(c) && Plannable(c, limit, store, s) && depth > 0
    ensures FilePlan(c, limit, store, NodeHash(c, FileTree, s), depth, output)
         == PlanLinks(c, limit, store, NodeManifest(c, FileTree, s).links, 0, depth, output)
  {
    LoadNode(c, FileTree, limit, store, s);
  }

  /** Planning a node yields the flattened chunk list, whatever the number of levels. */
  lemma {:induction false} PlanNode(c: Codec, limit: nat, store: Store, s: Shape, depth: nat, output: nat)
    requires Faithful(c) && Plannable(c, limit, store, s)
    requires depth > Height(s) && SumSizes(Flatten(s)) <= output
    ensures FilePlan(c, limit, store, NodeHash(c, FileTree, s), depth, output) == Planned(SumSizes(Flatten(s)), Flatten(s))
    decreases s, 1
  {
    PlanManifest(c, limit, store, s, depth, output);
    if s.Leaf? {
      PlanRaw(c, limit, store, s.items, 0, depth, output);
    } else {
      forall i | 0 <= i < |s.children|
        ensures Plannable(c, limit, store, s.children[i]) && Height(s.children[i]) < Height(s)
      {
        ChildPlannable(c, limit, store, s, i);
      }
      PlanChildren(c, limit, store, s.children, 0, depth, output);
    }
  }

  /** One planned child extends the plan of the links after it. */
  lemma PlanCons(c: Codec, limit: nat, store: Store, l: Link, links: seq<Link>, total: nat, depth: nat, output: nat,
                 chunks: seq<Link>, more: seq<Link>, sum: nat)
    requires depth > 0 && l.kind == File
    requires FilePlan(c, limit, store, l.hash, depth - 1, output) == Planned(l.size, chunks)
    requires total + l.size <= MAX_SAFE && total + l.size <= output
    requires PlanLinks(c, limit, store, links, total + l.size, depth, output) == Planned(sum, more)
    ensures PlanLinks(c, limit, store, [l] + links, total, depth, output) == Planned(sum, chunks + more)
  {
    assert ([l] + links)[1..] == links;
  }

  lemma PlanNil(c: Codec, limit: nat, store: Store, total: nat, depth: nat, output: nat)
    requires depth > 0
    ensures PlanLinks(c, limit, store, ChildLinks(c, FileTree, []), total, depth, output)
         == Planned(total + SumSizes(FlattenAll([])), FlattenAll([]))
  {
  }

  lemma FirstChild(c: Codec, ss: seq<Shape>)
    requires ss != []
    ensures ChildLinks(c, FileTree, ss) == [NodeLink(c, FileTree, ss[0])] + ChildLinks(c, FileTree, ss[1..])
    ensures FlattenAll(ss) == Flatten(ss[0]) + FlattenAll(ss[1..])
    ensures var l := NodeLink(c, FileTree, ss[0]);
      l.hash == NodeHash(c, FileTree, ss[0]) && l.size == SumSizes(Flatten(ss[0])) && l.kind == File
  {
  }

  lemma {:induction false} PlanChildren(c: Codec, limit: nat, store: Store, ss: seq<Shape>, total: nat, depth: nat, output: nat)
    requires Faithful(c) && depth > 0
    requires forall i :: 0 <= i < |ss| ==> Plannable(c, limit, store, ss[i]) && Height(ss[i]) < depth - 1
    requires total + SumSizes(FlattenAll(ss)) <= MAX_SAFE && total + SumSizes(FlattenAll(ss)) <= output
    ensures PlanLinks(c, limit, store, ChildLinks(c, FileTree, ss), total, depth, output)
         == Planned(total + SumSizes(FlattenAll(ss)), FlattenAll(ss))
    decreases ss, 0
  {
    hide *;
    if ss == [] {
      PlanNil(c, limit, store, total, depth, output);
    } else {
      var first, rest := ss[0], ss[1..];
      FirstChild(c, ss);
      SumSizesAppend(Flatten(first), FlattenAll(rest));
      PlanNode(c, limit, store, first, depth - 1, output);
      var total' := total + SumSizes(Flatten(first));
      PlanChildren(c, limit, store, rest, total', depth, output);
      PlanCons(c, limit, store, NodeLink(c, FileTree, first), ChildLinks(c, FileTree, rest), total, depth, output,
               Flatten(first), FlattenAll(rest), total' + SumSizes(FlattenAll(rest)));
    }
  }

  lemma FileShapeProperties(c: Codec, k: nat, body: Bytes) returns (h: nat)
    requires k >= 2 && |body| <= MAX_SAFE
    ensures var s := FileShape(c, k, body);
      && Flatten(s) == ChunkLinks(c, Chunks(body)) && SumSizes(Flatten(s)) == |body|
      && Listable(FileTree, Flatten(s)) && AllRaw(Flatten(s)) && Compact(s, k) && Height(s) <= h
    ensures |Chunks(body)| <= Pow(k, h + 1) && (|Chunks(body)| > 1 ==> Pow(k, h) < |Chunks(body)|)
  {
    var items := ChunkLinks(c, Chunks(body));
    FlattenCollapse(items, k);
    h := CollapseHeight(items, k);
    UniformCompact(FileShape(c, k, body), h, k);
    ConcatGroups(body, FILE_CHUNK_BYTES);
    SumChunkLinks(c, Chunks(body));
    GroupSizes(body, FILE_CHUNK_BYTES);
    ChunkCountBound(|body|);
    forall i | 0 <= i < |items| ensures FileLinkOk(items[i]) {
      SumSizesBound(items, i);
    }
  }

  lemma ChunkCountBound(n: nat)
    requires n <= MAX_SAFE
    ensures (n + FILE_CHUNK_BYTES - 1) / FILE_CHUNK_BYTES <= MAX_SAFE
  {
  }

  /** No chunk is empty, so a file of several chunks never asks for nothing. */
  lemma ChunksNonEmpty(body: Bytes)
    ensures forall i :: 0 <= i < |Chunks(body)| ==> Chunks(body)[i] != []
    ensures body == [] ==> Chunks(body) == []
  {
    GroupSizes(body, FILE_CHUNK_BYTES);
  }

  /** The entry link written for a file delivers exactly its bytes, with its size and kind; that of
      an empty file is refused, whatever the budget. */
  lemma ReadFile(c: Codec, k: nat, store: Store, body: Bytes, l: Link, depth: nat, output: nat)
    requires Faithful(c) && k >= 2 && FileStored(c, k, store, body)
    requires |body| <= MAX_SAFE && |body| <= output && depth > Height(FileShape(c, k, body))
    requires l.hash == FileHash(c, k, body) && l.size == |body| && l.kind == FileKind(body)
    ensures Deliver(c, k, store, l, depth, output)
         == if body == [] then NoReply(OverBudget) else Delivered(|body|, FileKind(body), body)
  {
    ChunksNonEmpty(body);
    if body == [] {
      EmptyRefused(c, k, store, l, depth, output);
    } else if |Chunks(body)| <= 1 {
      assert [l][1..] == [];
      assert Fetch(store, [l]) == Some(body + []);
    } else {
      var s := FileShape(c, k, body);
      var h := FileShapeProperties(c, k, body);
      PlanNode(c, k, store, s, depth, output);
      FetchChunks(c, store, Chunks(body));
      ConcatGroups(body, FILE_CHUNK_BYTES);
    }
  }

  /** No budget lets a reader fetch an empty file. */
  lemma EmptyRefused(c: Codec, limit: nat, store: Store, l: Link, depth: nat, output: nat)
    requires l.kind == FileKind([]) && l.size == 0
    ensures Deliver(c, limit, store, l, depth, output) == NoReply(OverBudget)
  {
    ChunksNonEmpty([]);
  }
}
