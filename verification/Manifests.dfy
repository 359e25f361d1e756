/** Manifests, links, and the structural rules the manifest decoder enforces. */
module Manifests {
  import opened NameOrder

  datatype Option<+T> = None | Some(value: T)

  newtype byte = x: int | 0 <= x < 256
  type Bytes = seq<byte>
  type Hash = nat

  /** Number.MAX_SAFE_INTEGER */
  const MAX_SAFE: nat := 9007199254740991

  /** Link types 0, 1, 2 and 3; the last three are also the manifest types. */
  datatype LinkType = Raw | File | Directory | Fanout

  datatype Bounds = Bounds(count: nat, first: Name, last: Name)

  datatype Link = Link(hash: Hash, size: nat, kind: LinkType, name: Option<Name>, bounds: Option<Bounds>)

  datatype Manifest = Manifest(kind: LinkType, links: seq<Link>)

  /** SHA-256 and MessagePack, as far as trees depend on them. */
  datatype Codec = Codec(digest: Bytes -> Hash, encode: Manifest -> Bytes, decode: Bytes -> Option<Manifest>)

  /** No two blobs share a digest, and what was encoded decodes to itself. */
  ghost predicate Faithful(c: Codec) {
    && (forall a, b :: c.digest(a) == c.digest(b) ==> a == b)
    && (forall m :: c.decode(c.encode(m)) == Some(m))
  }

  function Address(c: Codec, m: Manifest): Hash {
    c.digest(c.encode(m))
  }

  /** `decodedCost` of a link: its keys, its 32-byte hash, 8 for each number, and its texts. */
  function LinkCost(l: Link): nat {
    51 + (if l.name.Some? then 1 + |Utf8(l.name.value)| else 0)
       + (if l.bounds.Some? then 23 + |Utf8(l.bounds.value.first)| + |Utf8(l.bounds.value.last)| else 0)
  }

  function LinksCost(links: seq<Link>): nat {
    if links == [] then 0 else LinkCost(links[0]) + LinksCost(links[1..])
  }

  function DecodedCost(m: Manifest): nat {
    10 + LinksCost(m.links)
  }

  predicate SafeName(n: Name) {
    n != "" && n != "." && n != ".." && '/' !in n && '\0' !in n
  }

  predicate FileLinkOk(l: Link) {
    l.size <= MAX_SAFE && l.name.None? && (l.kind.Raw? || l.kind.File?)
  }

  predicate DirectoryLinkOk(l: Link) {
    l.size <= MAX_SAFE && l.name.Some? && SafeName(l.name.value)
  }

  predicate FanoutLinkOk(l: Link) {
    && l.size <= MAX_SAFE && l.name.None? && (l.kind.Directory? || l.kind.Fanout?)
    && l.bounds.Some? && 0 < l.bounds.value.count <= MAX_SAFE
    && ByteLe(l.bounds.value.first, l.bounds.value.last)
  }

  function Names(links: seq<Link>): (r: seq<Name>)
    requires forall i :: 0 <= i < |links| ==> links[i].name.Some?
  {
    seq(|links|, i requires 0 <= i < |links| => links[i].name.value)
  }

  /** The shape rules of a manifest of at most `limit` links: what each kind may link to, names
      safe and increasing, fan-out bounds ordered and pairwise disjoint. */
  ghost predicate ValidManifest(m: Manifest, limit: nat) {
    && |m.links| <= limit
    && match m.kind
       case Raw => false
       case File => forall i :: 0 <= i < |m.links| ==> FileLinkOk(m.links[i])
       case Directory =>
         && (forall i :: 0 <= i < |m.links| ==> DirectoryLinkOk(m.links[i]))
         && Increasing(Names(m.links))
       case Fanout =>
         && (forall i :: 0 <= i < |m.links| ==> FanoutLinkOk(m.links[i]))
         && (forall i, j :: 0 <= i < j < |m.links| ==>
              ByteLess(m.links[i].bounds.value.last, m.links[j].bounds.value.first))
  }

  /** The decoder's single pass: it compares each name or bound only with the one before it,
      and accepts exactly the manifests whose order holds between every pair. */
  method CheckManifest(m: Manifest, limit: nat) returns (ok: bool)
    ensures ok <==> ValidManifest(m, limit)
  {
    if |m.links| > limit || m.kind.Raw? {
      return false;
    }
    var previous: Option<Name> := None;
    for i := 0 to |m.links|
      invariant m.kind.File? ==> forall j :: 0 <= j < i ==> FileLinkOk(m.links[j])
      invariant m.kind.Directory? ==> PassedDirectory(m.links[..i], previous)
      invariant m.kind.Fanout? ==> PassedFanout(m.links[..i], previous)
    {
      var link := m.links[i];
      assert m.links[..i + 1] == m.links[..i] + [link];
      if m.kind.File? {
        if !FileLinkOk(link) { return false; }
      } else if m.kind.Directory? {
        if !DirectoryLinkOk(link) { return false; }
        var name := link.name.value;
        if previous.Some? && ByteLe(name, previous.value) {
          RejectedDirectory(m, i, limit);
          return false;
        }
        ExtendDirectory(m.links[..i], previous, link);
        previous := Some(name);
      } else {
        if !FanoutLinkOk(link) { return false; }
        if previous.Some? && ByteLe(link.bounds.value.first, previous.value) {
          RejectedFanout(m, i, limit);
          return false;
        }
        ExtendFanout(m.links[..i], previous, link);
        previous := Some(link.bounds.value.last);
      }
    }
    assert m.links[..|m.links|] == m.links;
    return true;
  }

  ghost predicate PassedDirectory(links: seq<Link>, previous: Option<Name>) {
    && (forall i :: 0 <= i < |links| ==> DirectoryLinkOk(links[i]))
    && Increasing(Names(links))
    && previous == if links == [] then None else links[|links| - 1].name
  }

  ghost predicate PassedFanout(links: seq<Link>, previous: Option<Name>) {
    && (forall i :: 0 <= i < |links| ==> FanoutLinkOk(links[i]))
    && (forall i, j :: 0 <= i < j < |links| ==>
         ByteLess(links[i].bounds.value.last, links[j].bounds.value.first))
    && previous == if links == [] then None else Some(links[|links| - 1].bounds.value.last)
  }

  lemma ExtendDirectory(links: seq<Link>, previous: Option<Name>, link: Link)
    requires PassedDirectory(links, previous) && DirectoryLinkOk(link)
    requires previous.Some? ==> !ByteLe(link.name.value, previous.value)
    ensures PassedDirectory(links + [link], link.name)
  {
    hide ByteLe;
    var name := link.name.value;
    var all := links + [link];
    forall i | 0 <= i < |links| ensures ByteLess(links[i].name.value, name) {
      var last := links[|links| - 1].name.value;
      ByteTotal(last, name);
      ByteTotal(last, last);
      assert Names(links)[i] == links[i].name.value && Names(links)[|links| - 1] == last;
      assert ByteLe(links[i].name.value, last);
      ByteTransitive(links[i].name.value, last, name);
    }
    forall i, j | 0 <= i < j < |all| ensures ByteLess(Names(all)[i], Names(all)[j]) {
      if j < |links| { assert ByteLess(Names(links)[i], Names(links)[j]); }
    }
  }

  lemma ExtendFanout(links: seq<Link>, previous: Option<Name>, link: Link)
    requires PassedFanout(links, previous) && FanoutLinkOk(link)
    requires previous.Some? ==> !ByteLe(link.bounds.value.first, previous.value)
    ensures PassedFanout(links + [link], Some(link.bounds.value.last))
  {
    hide ByteLe;
    var first := link.bounds.value.first;
    forall i | 0 <= i < |links| ensures ByteLess(links[i].bounds.value.last, first) {
      var prior := links[|links| - 1].bounds.value;
      ByteTotal(prior.last, first);
      ByteTotal(first, first);
      if i < |links| - 1 {
        assert ByteLess(links[i].bounds.value.last, prior.first);
        ByteTransitive(links[i].bounds.value.last, prior.first, prior.last);
        ByteTransitive(links[i].bounds.value.last, prior.last, first);
      }
    }
  }

  lemma RejectedDirectory(m: Manifest, i: nat, limit: nat)
    requires m.kind.Directory? && 0 < i < |m.links|
    requires m.links[i].name.Some? && m.links[i - 1].name.Some?
    requires ByteLe(m.links[i].name.value, m.links[i - 1].name.value)
    ensures !ValidManifest(m, limit)
  {
    if ValidManifest(m, limit) {
      assert ByteLess(Names(m.links)[i - 1], Names(m.links)[i]);
      ByteTotal(m.links[i].name.value, m.links[i - 1].name.value);
    }
  }

  lemma RejectedFanout(m: Manifest, i: nat, limit: nat)
    requires m.kind.Fanout? && 0 < i < |m.links|
    requires m.links[i].bounds.Some? && m.links[i - 1].bounds.Some?
    requires ByteLe(m.links[i].bounds.value.first, m.links[i - 1].bounds.value.last)
    ensures !ValidManifest(m, limit)
  {
    ByteTotal(m.links[i].bounds.value.first, m.links[i - 1].bounds.value.last);
  }

  function SumSizes(links: seq<Link>): nat {
    if links == [] then 0 else links[0].size + SumSizes(links[1..])
  }

  lemma {:induction false} SumSizesAppend(a: seq<Link>, b: seq<Link>)
    ensures SumSizes(a + b) == SumSizes(a) + SumSizes(b)
  {
    if a == [] {
      assert a + b == b;
    } else {
      SumSizesAppend(a[1..], b);
      assert (a + b)[1..] == a[1..] + b;
    }
  }

  lemma {:induction false} SumSizesBound(links: seq<Link>, i: nat)
    requires i < |links|
    ensures links[i].size <= SumSizes(links)
  {
    if i > 0 { SumSizesBound(links[1..], i - 1); }
  }
}
