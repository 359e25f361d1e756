/** Upload authorizations: the hashes of a batch are packed, per server scope, into as few signed
    events as the hash and header ceilings allow. */
module UploadAuthorization {
  import opened Manifests
  import opened Grouping
  import opened Numerals

  type Text = string
  type Tag = seq<Text>
  type Domain = Option<Text>

  datatype Template = Template(kind: nat, createdAt: nat, content: Text, tags: seq<Tag>)

  datatype Event = Event(id: Text, pubkey: Text, template: Template, sig: Text)

  datatype Failure = InvalidLimits | InvalidHashes | CannotFitOne | SignerRefused | TemplateChanged | Oversized

  datatype Result<+T> = Ok(value: T) | Err(failure: Failure)

  const UPLOAD_KIND: nat := 24242
  const CONTENT: Text := "Upload Nix cache blobs"
  const ID_CHARACTERS: nat := 64
  const HASH_CHARACTERS: nat := 64
  const SIG_CHARACTERS: nat := 128

  // ---- Serialization ----

  function Quote(s: Text): Text {
    "\"" + s + "\""
  }

  function Commas(items: seq<Text>): Text {
    if items == [] then "" else if |items| == 1 then items[0] else Commas(items[..|items| - 1]) + "," + items[|items| - 1]
  }

  function TagJson(tag: Tag): Text {
    "[" + Commas(seq(|tag|, i requires 0 <= i < |tag| => Quote(tag[i]))) + "]"
  }

  function TagsJson(tags: seq<Tag>): Text {
    "[" + Commas(seq(|tags|, i requires 0 <= i < |tags| => TagJson(tags[i]))) + "]"
  }

  /** The event as canonical JSON; none of the texts has a character that needs escaping. */
  function EventJson(e: Event): Text {
    "{\"id\":" + Quote(e.id) + ",\"pubkey\":" + Quote(e.pubkey) + ",\"created_at\":" + Decimal(e.template.createdAt)
    + ",\"kind\":" + Decimal(e.template.kind) + ",\"tags\":" + TagsJson(e.template.tags)
    + ",\"content\":" + Quote(e.template.content) + ",\"sig\":" + Quote(e.sig) + "}"
  }

  /** The length of unpadded base64. */
  function Base64Length(n: nat): nat {
    (4 * n + 2) / 3
  }

  /** Base64 without padding, as the values of its characters: three bytes are four of them. */
  function Base64(s: seq<int>): seq<int>
    decreases |s|
  {
    if |s| >= 3 then
      [s[0] / 4, s[0] % 4 * 16 + s[1] / 16, s[1] % 16 * 4 + s[2] / 64, s[2] % 64] + Base64(s[3..])
    else if |s| == 2 then [s[0] / 4, s[0] % 4 * 16 + s[1] / 16, s[1] % 16 * 4]
    else if |s| == 1 then [s[0] / 4, s[0] % 4 * 16]
    else []
  }

  lemma {:induction false} Base64LengthIs(s: seq<int>)
    ensures |Base64(s)| == Base64Length(|s|)
    decreases |s|
  {
    if |s| >= 3 { Base64LengthIs(s[3..]); }
  }

  datatype Member = Member(key: Text, json: Text)

  function MembersJson(members: seq<Member>): Text {
    if members == [] then ""
    else if |members| == 1 then Quote(members[0].key) + ":" + members[0].json
    else Quote(members[0].key) + ":" + members[0].json + "," + MembersJson(members[1..])
  }

  /** The header holds an object with the seven fields of a signed event. */
  lemma EventJsonIs(e: Event)
    ensures EventJson(e) == "{" + MembersJson([
      Member("id", Quote(e.id)), Member("pubkey", Quote(e.pubkey)), Member("created_at", Decimal(e.template.createdAt)),
      Member("kind", Decimal(e.template.kind)), Member("tags", TagsJson(e.template.tags)),
      Member("content", Quote(e.template.content)), Member("sig", Quote(e.sig))]) + "}"
  {
    hide TagsJson, Decimal, MembersJson, Quote;
    var t := e.template;
    var ms := [Member("id", Quote(e.id)), Member("pubkey", Quote(e.pubkey)), Member("created_at", Decimal(t.createdAt)),
               Member("kind", Decimal(t.kind)), Member("tags", TagsJson(t.tags)), Member("content", Quote(t.content)), Member("sig", Quote(e.sig))];
    LeadIs(e);
    Keys();
    var p0 := "{";
    var p1 := p0 + "\"id\":" + ms[0].json + ",";
    var p2 := p1 + "\"pubkey\":" + ms[1].json + ",";
    var p3 := p2 + "\"created_at\":" + ms[2].json + ",";
    var p4 := p3 + "\"kind\":" + ms[3].json + ",";
    var p5 := p4 + "\"tags\":" + ms[4].json + ",";
    var p6 := p5 + "\"content\":" + ms[5].json + ",";
    MemberNext(p0, ms, 0, "\"id\":");
    MemberNext(p1, ms, 1, "\"pubkey\":");
    MemberNext(p2, ms, 2, "\"created_at\":");
    MemberNext(p3, ms, 3, "\"kind\":");
    MemberNext(p4, ms, 4, "\"tags\":");
    MemberNext(p5, ms, 5, "\"content\":");
    MemberLast(p6, ms, 6, "\"sig\":");
    assert ms[0..] == ms;
  }

  lemma Keys()
    ensures Quote("id") + ":" == "\"id\":" && Quote("pubkey") + ":" == "\"pubkey\":"
    ensures Quote("created_at") + ":" == "\"created_at\":" && Quote("kind") + ":" == "\"kind\":"
    ensures Quote("tags") + ":" == "\"tags\":" && Quote("content") + ":" == "\"content\":" && Quote("sig") + ":" == "\"sig\":"
  {
  }

  /** The text with each comma at the end of a member. */
  lemma LeadIs(e: Event)
    ensures EventJson(e) == "{" + "\"id\":" + Quote(e.id) + "," + "\"pubkey\":" + Quote(e.pubkey) + "," + "\"created_at\":"
      + Decimal(e.template.createdAt) + "," + "\"kind\":" + Decimal(e.template.kind) + "," + "\"tags\":" + TagsJson(e.template.tags)
      + "," + "\"content\":" + Quote(e.template.content) + "," + "\"sig\":" + Quote(e.sig) + "}"
  {
    hide TagsJson, Decimal, Quote;
    assert "{" + "\"id\":" == "{\"id\":";
    Lead("{\"id\":" + Quote(e.id), "\"pubkey\":", ",\"pubkey\":");
    var p2 := "{\"id\":" + Quote(e.id) + ",\"pubkey\":" + Quote(e.pubkey);
    Lead(p2, "\"created_at\":", ",\"created_at\":");
    var p3 := p2 + ",\"created_at\":" + Decimal(e.template.createdAt);
    Lead(p3, "\"kind\":", ",\"kind\":");
    var p4 := p3 + ",\"kind\":" + Decimal(e.template.kind);
    Lead(p4, "\"tags\":", ",\"tags\":");
    var p5 := p4 + ",\"tags\":" + TagsJson(e.template.tags);
    Lead(p5, "\"content\":", ",\"content\":");
    Lead(p5 + ",\"content\":" + Quote(e.template.content), "\"sig\":", ",\"sig\":");
  }

  lemma Lead(p: Text, a: Text, b: Text)
    requires "," + a == b
    ensures p + "," + a == p + b
  {
    assert p + "," + a == p + ("," + a);
  }

  lemma MemberNext(before: Text, ms: seq<Member>, i: nat, lead: Text)
    requires i + 1 < |ms| && lead == Quote(ms[i].key) + ":"
    ensures before + MembersJson(ms[i..]) == before + lead + ms[i].json + "," + MembersJson(ms[i + 1..])
  {
    var m, rest := ms[i], MembersJson(ms[i + 1..]);
    assert ms[i..][1..] == ms[i + 1..];
    assert before + (lead + m.json + "," + rest) == before + lead + m.json + "," + rest;
  }

  lemma MemberLast(before: Text, ms: seq<Member>, i: nat, lead: Text)
    requires i + 1 == |ms| && lead == Quote(ms[i].key) + ":"
    ensures before + MembersJson(ms[i..]) == before + lead + ms[i].json
  {
    assert before + (lead + ms[i].json) == before + lead + ms[i].json;
  }

  const FIELD_FRAME: nat := |"Authorization: Nostr "| + |"\r\n"|

  /** The size of the whole header field. */
  function FieldBytes(e: Event): nat {
    FIELD_FRAME + Base64Length(|EventJson(e)|)
  }

  function Zeros(n: nat): Text {
    seq(n, _ => '0')
  }

  function Placeholder(t: Template): Event {
    Event(Zeros(ID_CHARACTERS), Zeros(ID_CHARACTERS), t, Zeros(SIG_CHARACTERS))
  }

  function ConservativeBytes(t: Template): nat {
    FieldBytes(Placeholder(t))
  }

  function UploadTemplate(now: nat, expiration: nat, domain: Domain, hashes: seq<Text>): Template {
    Template(UPLOAD_KIND, now, CONTENT,
             [["t", "upload"], ["expiration", Decimal(expiration)]]
             + (if domain.Some? then [["server", domain.value]] else [])
             + HashTags(hashes))
  }

  function HashTags(hashes: seq<Text>): seq<Tag> {
    seq(|hashes|, i requires 0 <= i < |hashes| => ["x", hashes[i]])
  }

  /** What verification of an event guarantees of its widths. */
  predicate FixedWidths(e: Event) {
    |e.id| == ID_CHARACTERS && |e.pubkey| == ID_CHARACTERS && |e.sig| == SIG_CHARACTERS
  }

  /** Signing cannot make the header larger than the estimate. */
  lemma SignedSize(e: Event)
    requires FixedWidths(e)
    ensures FieldBytes(e) == ConservativeBytes(e.template)
  {
  }

  // ---- Size by the number of hashes ----

  function BaseLength(now: nat, expiration: nat, domain: Domain): nat {
    |EventJson(Placeholder(UploadTemplate(now, expiration, domain, [])))|
  }

  /** A hash tag with the comma before it. */
  const PER_HASH: nat := 73

  predicate ValidHash(h: Text) {
    |h| == HASH_CHARACTERS && forall i :: 0 <= i < |h| ==> '0' <= h[i] <= '9' || 'a' <= h[i] <= 'f'
  }

  predicate Fits(now: nat, expiration: nat, domain: Domain, ceiling: nat, count: nat) {
    FIELD_FRAME + Base64Length(BaseLength(now, expiration, domain) + PER_HASH * count) <= ceiling
  }

  lemma CommasSnoc(items: seq<Text>, item: Text)
    requires items != []
    ensures Commas(items + [item]) == Commas(items) + "," + item
  {
    assert (items + [item])[..|items|] == items;
  }

  lemma HashTagLength(h: Text)
    requires |h| == HASH_CHARACTERS
    ensures |TagJson(["x", h])| == PER_HASH - 1
  {
    var tag := ["x", h];
    var items := seq(|tag|, i requires 0 <= i < |tag| => Quote(tag[i]));
    assert items == [Quote("x")] + [Quote(h)];
    CommasSnoc([Quote("x")], Quote(h));
  }

  lemma {:induction false} PackedLength(now: nat, expiration: nat, domain: Domain, hashes: seq<Text>)
    requires forall i :: 0 <= i < |hashes| ==> |hashes[i]| == HASH_CHARACTERS
    ensures |EventJson(Placeholder(UploadTemplate(now, expiration, domain, hashes)))| == BaseLength(now, expiration, domain) + PER_HASH * |hashes|
  {
    if hashes == [] {
    } else {
      var n := |hashes| - 1;
      PackedLength(now, expiration, domain, hashes[..n]);
      var a, b := UploadTemplate(now, expiration, domain, hashes[..n]), UploadTemplate(now, expiration, domain, hashes);
      assert b.tags == a.tags + [["x", hashes[n]]];
      TagsSnoc(a.tags, ["x", hashes[n]]);
      HashTagLength(hashes[n]);
      hide TagsJson, TagJson, Decimal, UploadTemplate, BaseLength;
      MoreTags(a, b);
    }
  }

  lemma MoreTags(a: Template, b: Template)
    requires b == a.(tags := b.tags)
    ensures |EventJson(Placeholder(b))| - |TagsJson(b.tags)| == |EventJson(Placeholder(a))| - |TagsJson(a.tags)|
  {
    hide TagsJson, Decimal;
  }

  lemma TagsSnoc(tags: seq<Tag>, tag: Tag)
    requires tags != []
    ensures |TagsJson(tags + [tag])| == |TagsJson(tags)| + 1 + |TagJson(tag)|
  {
    var more := tags + [tag];
    var a := seq(|tags|, i requires 0 <= i < |tags| => TagJson(tags[i]));
    var b := seq(|more|, i requires 0 <= i < |more| => TagJson(more[i]));
    assert b == a + [TagJson(tag)];
    CommasSnoc(a, TagJson(tag));
  }

  /** The header size of a group depends on its length alone. */
  lemma GroupFits(now: nat, expiration: nat, domain: Domain, ceiling: nat, group: seq<Text>)
    requires forall i :: 0 <= i < |group| ==> |group[i]| == HASH_CHARACTERS
    ensures ConservativeBytes(UploadTemplate(now, expiration, domain, group)) <= ceiling <==> Fits(now, expiration, domain, ceiling, |group|)
  {
    PackedLength(now, expiration, domain, group);
  }

  lemma FitsFewer(now: nat, expiration: nat, domain: Domain, ceiling: nat, a: nat, b: nat)
    requires a <= b && Fits(now, expiration, domain, ceiling, b)
    ensures Fits(now, expiration, domain, ceiling, a)
  {
    var base := BaseLength(now, expiration, domain);
    assert base + PER_HASH * a <= base + PER_HASH * b;
  }

  /** The most hashes one event of a scope can carry. */
  function Room(now: nat, expiration: nat, domain: Domain, ceiling: nat, maxHashes: nat): (k: nat)
    ensures k <= maxHashes && (k > 0 ==> Fits(now, expiration, domain, ceiling, k))
    ensures forall c :: k < c <= maxHashes ==> !Fits(now, expiration, domain, ceiling, c)
  {
    if maxHashes == 0 || Fits(now, expiration, domain, ceiling, maxHashes) then maxHashes
    else Room(now, expiration, domain, ceiling, maxHashes - 1)
  }

  /** Both ceilings hold of a group. */
  ghost predicate Allowed(now: nat, expiration: nat, domain: Domain, ceiling: nat, maxHashes: nat, group: seq<Text>) {
    |group| <= maxHashes && ConservativeBytes(UploadTemplate(now, expiration, domain, group)) <= ceiling
  }

  ghost predicate Covers(gs: seq<seq<Text>>, hashes: seq<Text>) {
    forall i :: 0 <= i < |hashes| ==> hashes[i] in Concat(gs)
  }

  /** No covering of the hashes by groups within both ceilings needs fewer events. */
  lemma FewestEvents(now: nat, expiration: nat, domain: Domain, ceiling: nat, maxHashes: nat, hashes: seq<Text>, gs: seq<seq<Text>>)
    requires Room(now, expiration, domain, ceiling, maxHashes) > 0
    requires forall i, j :: 0 <= i < j < |hashes| ==> hashes[i] != hashes[j]
    requires Covers(gs, hashes)
    requires forall i :: 0 <= i < |gs| ==> Allowed(now, expiration, domain, ceiling, maxHashes, gs[i])
    requires forall i, j :: 0 <= i < |gs| && 0 <= j < |gs[i]| ==> |gs[i][j]| == HASH_CHARACTERS
    ensures |Groups(hashes, Room(now, expiration, domain, ceiling, maxHashes))| <= |gs|
  {
    hide Room, Allowed;
    var k := Room(now, expiration, domain, ceiling, maxHashes);
    forall i | 0 <= i < |gs| ensures |gs[i]| <= k {
      AllowedAtMost(now, expiration, domain, ceiling, maxHashes, gs[i]);
    }
    CoverCount(hashes, gs, k);
  }

  lemma CoverCount(hashes: seq<Text>, gs: seq<seq<Text>>, k: nat)
    requires k > 0 && Covers(gs, hashes) && forall i :: 0 <= i < |gs| ==> |gs[i]| <= k
    requires forall i, j :: 0 <= i < j < |hashes| ==> hashes[i] != hashes[j]
    ensures |Groups(hashes, k)| <= |gs|
  {
    ConcatBounded(gs, k);
    DistinctWithin(hashes, Concat(gs));
    GroupSizes(hashes, k);
    CeilAtMost(|hashes|, k, |gs|);
  }

  lemma AllowedAtMost(now: nat, expiration: nat, domain: Domain, ceiling: nat, maxHashes: nat, group: seq<Text>)
    requires Allowed(now, expiration, domain, ceiling, maxHashes, group)
    requires forall i :: 0 <= i < |group| ==> |group[i]| == HASH_CHARACTERS
    ensures |group| <= Room(now, expiration, domain, ceiling, maxHashes)
  {
    hide Fits, ConservativeBytes, UploadTemplate;
    GroupFits(now, expiration, domain, ceiling, group);
  }

  lemma {:induction false} ConcatBounded<T>(gs: seq<seq<T>>, k: nat)
    requires forall i :: 0 <= i < |gs| ==> |gs[i]| <= k
    ensures |Concat(gs)| <= |gs| * k
  {
    if gs != [] {
      ConcatBounded(gs[1..], k);
      assert |gs| * k == (|gs| - 1) * k + k;
    }
  }

  lemma {:induction false} DistinctWithin<T>(a: seq<T>, b: seq<T>)
    requires forall i, j :: 0 <= i < j < |a| ==> a[i] != a[j]
    requires forall i :: 0 <= i < |a| ==> a[i] in b
    ensures |a| <= |b|
  {
    if a != [] {
      var n := |a| - 1;
      var p :| 0 <= p < |b| && b[p] == a[n];
      var rest := b[..p] + b[p + 1..];
      forall i | 0 <= i < n ensures a[..n][i] in rest {
        var q :| 0 <= q < |b| && b[q] == a[i];
        assert rest[if q < p then q else q - 1] == a[i];
      }
      DistinctWithin(a[..n], rest);
    }
  }

  lemma CeilAtMost(n: nat, k: nat, q: nat)
    requires k > 0 && n <= q * k
    ensures (n + k - 1) / k <= q
  {
    var d := (n + k - 1) / k;
    assert d * k <= n + k - 1;
    assert (q + 1) * k == q * k + k;
    if d > q {
      MulMono(q + 1, d, k);
    }
  }

  // ---- Packing one scope ----

  datatype Limits = Limits(now: nat, expiration: nat, maxHashes: nat, ceiling: nat)

  function RoomFor(l: Limits, domain: Domain): nat {
    Room(l.now, l.expiration, domain, l.ceiling, l.maxHashes)
  }

  predicate AllValid(hashes: seq<Text>) {
    forall i :: 0 <= i < |hashes| ==> ValidHash(hashes[i])
  }

  /** Add hashes while both ceilings allow; `None` where not even one fits. */
  method FillGroup(l: Limits, domain: Domain, hashes: seq<Text>, offset: nat) returns (group: Option<seq<Text>>)
    requires offset < |hashes| && AllValid(hashes) && l.maxHashes > 0
    ensures group.None? <==> RoomFor(l, domain) == 0
    ensures group.Some? ==> group.value == hashes[offset..Min(offset + RoomFor(l, domain), |hashes|)]
  {
    hide UploadTemplate, ConservativeBytes, Fits, Room;
    var i := offset;
    while i < |hashes| && i - offset < l.maxHashes
      invariant offset <= i <= |hashes| && i - offset <= RoomFor(l, domain)
    {
      var candidate := hashes[offset..i] + [hashes[i]];
      CandidateFits(l, domain, hashes, offset, i);
      if ConservativeBytes(UploadTemplate(l.now, l.expiration, domain, candidate)) > l.ceiling {
        if i == offset {
          return None;
        }
        break;
      }
      i := i + 1;
    }
    group := Some(hashes[offset..i]);
  }

  function Min(a: nat, b: nat): nat {
    if a < b then a else b
  }

  lemma CandidateFits(l: Limits, domain: Domain, hashes: seq<Text>, offset: nat, i: nat)
    requires offset <= i < |hashes| && AllValid(hashes) && i - offset < l.maxHashes
    ensures ConservativeBytes(UploadTemplate(l.now, l.expiration, domain, hashes[offset..i] + [hashes[i]])) <= l.ceiling
       <==> i - offset < RoomFor(l, domain)
  {
    hide UploadTemplate, ConservativeBytes, Fits, Room;
    var group := hashes[offset..i] + [hashes[i]];
    assert forall j :: 0 <= j < |group| ==> group[j] == hashes[offset + j];
    GroupFits(l.now, l.expiration, domain, l.ceiling, group);
    if i - offset < RoomFor(l, domain) {
      FitsFewer(l.now, l.expiration, domain, l.ceiling, |group|, RoomFor(l, domain));
    }
  }

  /** `event` was signed for `group`, unchanged and within the ceiling. */
  ghost predicate SignedFor(l: Limits, domain: Domain, group: seq<Text>, event: Event) {
    && event.template == UploadTemplate(l.now, l.expiration, domain, group)
    && FixedWidths(event) && FieldBytes(event) <= l.ceiling && |group| <= l.maxHashes
  }

  lemma SignedFits(l: Limits, domain: Domain, group: seq<Text>, event: Event)
    requires AllValid(group) && 0 < |group| <= RoomFor(l, domain)
    requires event.template == UploadTemplate(l.now, l.expiration, domain, group) && FixedWidths(event)
    ensures SignedFor(l, domain, group, event)
  {
    hide UploadTemplate, FieldBytes, Fits, Room;
    SignedSize(event);
    FitsFewer(l.now, l.expiration, domain, l.ceiling, |group|, RoomFor(l, domain));
    GroupFits(l.now, l.expiration, domain, l.ceiling, group);
  }

  /** What a header for this hash says, tag by tag: an upload signed now, valid until the expiration,
      for the server's domain alone if it has one, and for hashes of the batch, this one among
      them. */
  ghost predicate Says(l: Limits, domain: Domain, hashes: seq<Text>, h: Text, event: Event) {
    var t := event.template;
    && t.kind == 24242 && t.createdAt == l.now && t.content == "Upload Nix cache blobs"
    && (forall v :: ["t", v] in t.tags <==> v == "upload")
    && (exists v :: ["expiration", v] in t.tags && Digits(v) && ReadFrom(0, v) == l.expiration)
    && (forall v, w :: ["expiration", v] in t.tags && ["expiration", w] in t.tags ==> v == w)
    && (forall d :: ["server", d] in t.tags <==> domain == Some(d))
    && ["x", h] in t.tags && (forall g :: ["x", g] in t.tags ==> g in hashes)
    && (forall i :: 0 <= i < |t.tags| ==> |t.tags[i]| == 2 && t.tags[i][0] in {"t", "expiration", "server", "x"})
  }

  /** The hash tags of a template are those of its hashes, in order, after the others. */
  lemma TemplateTags(now: nat, expiration: nat, domain: Domain, hashes: seq<Text>, tag: Tag)
    ensures var t := UploadTemplate(now, expiration, domain, hashes);
      tag in t.tags <==> || tag == ["t", "upload"] || tag == ["expiration", Decimal(expiration)]
                         || (domain.Some? && tag == ["server", domain.value])
                         || (|tag| == 2 && tag[0] == "x" && tag[1] in hashes)
  {
    var first: seq<Tag> := [["t", "upload"], ["expiration", Decimal(expiration)]];
    var server: seq<Tag> := if domain.Some? then [["server", domain.value]] else [];
    var t := UploadTemplate(now, expiration, domain, hashes);
    assert t.tags == first + server + HashTags(hashes);
    if |tag| == 2 && tag[0] == "x" && tag[1] in hashes {
      var i :| 0 <= i < |hashes| && hashes[i] == tag[1];
      assert tag == ["x", hashes[i]] && HashTags(hashes)[i] == tag;
    }
  }

  /** Tags that are an upload, an expiration, a server for each of `domains`, and a group's hashes. */
  ghost predicate PlainTags(tags: seq<Tag>, expiration: Text, domain: Domain, group: seq<Text>) {
    forall tag :: tag in tags <==> || tag == ["t", "upload"] || tag == ["expiration", expiration]
                                   || (domain.Some? && tag == ["server", domain.value])
                                   || (|tag| == 2 && tag[0] == "x" && tag[1] in group)
  }

  lemma PlainTagsSay(tags: seq<Tag>, expiration: Text, domain: Domain, group: seq<Text>)
    requires PlainTags(tags, expiration, domain, group)
    ensures forall v :: ["t", v] in tags <==> v == "upload"
    ensures forall v :: ["expiration", v] in tags <==> v == expiration
    ensures forall d :: ["server", d] in tags <==> domain == Some(d)
    ensures forall g :: ["x", g] in tags <==> g in group
  {
    forall v ensures ["t", v] in tags <==> v == "upload" {
      assert ["t", v][0] == "t" && ["t", v][1] == v;
    }
    forall v ensures ["expiration", v] in tags <==> v == expiration {
      assert ["expiration", v][0] == "expiration" && ["expiration", v][1] == v;
    }
    forall d ensures ["server", d] in tags <==> domain == Some(d) {
      assert ["server", d][0] == "server" && ["server", d][1] == d;
    }
    forall g ensures ["x", g] in tags <==> g in group {
      assert ["x", g][0] == "x" && ["x", g][1] == g;
    }
  }

  lemma PlainTagsShape(tags: seq<Tag>, expiration: Text, domain: Domain, group: seq<Text>)
    requires PlainTags(tags, expiration, domain, group)
    ensures forall i :: 0 <= i < |tags| ==> |tags[i]| == 2 && tags[i][0] in {"t", "expiration", "server", "x"}
  {
    forall i | 0 <= i < |tags| ensures |tags[i]| == 2 && tags[i][0] in {"t", "expiration", "server", "x"} {
      assert tags[i] in tags;
    }
  }

  lemma SignedSays(l: Limits, domain: Domain, hashes: seq<Text>, group: seq<Text>, h: Text, event: Event)
    requires h in group && (forall g :: g in group ==> g in hashes) && SignedFor(l, domain, group, event)
    ensures Says(l, domain, hashes, h, event) && forall g :: ["x", g] in event.template.tags <==> g in group
  {
    hide UploadTemplate, FieldBytes, Decimal, ReadFrom, Digits;
    var t, expiration := event.template, Decimal(l.expiration);
    assert PlainTags(t.tags, expiration, domain, group) by {
      forall tag ensures tag in t.tags <==> || tag == ["t", "upload"] || tag == ["expiration", expiration]
                                            || (domain.Some? && tag == ["server", domain.value])
                                            || (|tag| == 2 && tag[0] == "x" && tag[1] in group)
      {
        TemplateTags(l.now, l.expiration, domain, group, tag);
      }
    }
    hide PlainTags;
    TemplateHead(l.now, l.expiration, domain, group);
    DecimalReads(l.expiration);
    PlainTagsSay(t.tags, expiration, domain, group);
    PlainTagsShape(t.tags, expiration, domain, group);
    assert ["expiration", expiration] in t.tags;
  }

  lemma TemplateHead(now: nat, expiration: nat, domain: Domain, hashes: seq<Text>)
    ensures var t := UploadTemplate(now, expiration, domain, hashes); t.kind == 24242 && t.createdAt == now && t.content == "Upload Nix cache blobs"
  {
  }

  /** The signer's n-th answer is the template, verified. */
  ghost predicate Answers(signer: (nat, Template) -> Option<Event>, verify: Event -> bool, n: nat, template: Template) {
    signer(n, template).Some? && signer(n, template).value.template == template && verify(signer(n, template).value)
  }

  /** The first `n` groups of a scope are answered, the first of them as answer number `before`. */
  ghost predicate Answered(l: Limits, domain: Domain, groups: seq<seq<Text>>, n: nat,
                           signer: (nat, Template) -> Option<Event>, verify: Event -> bool, before: nat)
    requires n <= |groups|
  {
    forall i :: 0 <= i < n ==> Answers(signer, verify, before + i, UploadTemplate(l.now, l.expiration, domain, groups[i]))
  }

  /** A scope can be served: it has room for a hash, and all its groups are answered. */
  ghost predicate Servable(l: Limits, domain: Domain, hashes: seq<Text>,
                           signer: (nat, Template) -> Option<Event>, verify: Event -> bool, before: nat) {
    && RoomFor(l, domain) > 0
    && var groups := Groups(hashes, RoomFor(l, domain)); Answered(l, domain, groups, |groups|, signer, verify, before)
  }

  /** One event for each group, in order. */
  method PackScope(l: Limits, domain: Domain, hashes: seq<Text>, signer: (nat, Template) -> Option<Event>, verify: Event -> bool, before: nat)
    returns (r: Result<seq<Event>>)
    requires AllValid(hashes) && hashes != [] && l.maxHashes > 0
    requires forall e :: verify(e) ==> FixedWidths(e)
    ensures r.Ok? ==> RoomFor(l, domain) > 0 && |r.value| == |Groups(hashes, RoomFor(l, domain))|
    ensures r.Ok? ==> forall i :: 0 <= i < |r.value| ==> SignedFor(l, domain, Groups(hashes, RoomFor(l, domain))[i], r.value[i])
    ensures r.Ok? ==> forall i, h :: 0 <= i < |r.value| && h in Groups(hashes, RoomFor(l, domain))[i] ==> Says(l, domain, hashes, h, r.value[i])
    ensures r.Ok? ==> forall i, g :: 0 <= i < |r.value| ==> (["x", g] in r.value[i].template.tags <==> g in Groups(hashes, RoomFor(l, domain))[i])
    ensures r.Err? ==> r.failure in {CannotFitOne, SignerRefused, TemplateChanged}
    ensures r == Err(CannotFitOne) <==> RoomFor(l, domain) == 0
    ensures r.Ok? <==> Servable(l, domain, hashes, signer, verify, before)
    ensures r.Err? && r.failure != CannotFitOne ==> exists n, template :: !Answers(signer, verify, n, template)
  {
    hide UploadTemplate, RoomFor, SignedFor, FieldBytes, Answers, Says;
    var events: seq<Event> := [];
    var offset := 0;
    ghost var k := RoomFor(l, domain);
    assert hashes[..0] == [];
    while offset < |hashes|
      invariant offset <= |hashes| && (offset < |hashes| ==> k == 0 || offset % k == 0)
      invariant offset > 0 ==> k > 0
      invariant if k == 0 then events == [] else |events| == |Groups(hashes[..offset], k)|
      invariant k > 0 ==> forall i :: 0 <= i < |events| ==> SignedFor(l, domain, Groups(hashes[..offset], k)[i], events[i])
      invariant k > 0 ==> Answered(l, domain, Groups(hashes[..offset], k), |events|, signer, verify, before)
    {
      var filled := FillGroup(l, domain, hashes, offset);
      if filled.None? {
        return Err(CannotFitOne);
      }
      var group := filled.value;
      var template := UploadTemplate(l.now, l.expiration, domain, group);
      GroupAt(hashes, offset, k);
      assert group == Groups(hashes, k)[|events|];
      AnswersIs(signer, verify, before + |events|, template);
      var signed := signer(before + |events|, template);
      if signed.None? {
        return Err(SignerRefused);
      }
      var event := signed.value;
      if event.template != template || !verify(event) {
        return Err(TemplateChanged);
      }
      SignedFits(l, domain, group, event);
      assert FieldBytes(event) <= l.ceiling by { SignedCeiling(l, domain, group, event); }
      if FieldBytes(event) > l.ceiling {
        return Err(Oversized);
      }
      NextSnoc(hashes, offset, offset + |group|, k);
      if |group| == k { ModAdd(offset, k); }
      offset := offset + |group|;
      events := events + [event];
    }
    assert hashes[..offset] == hashes;
    EventsSay(l, domain, hashes, events);
    r := Ok(events);
  }

  lemma GroupWithin(hashes: seq<Text>, k: nat, i: nat)
    requires k > 0 && i < |Groups(hashes, k)|
    ensures forall g :: g in Groups(hashes, k)[i] ==> g in hashes
  {
    forall g | g in Groups(hashes, k)[i] ensures g in hashes {
      ConcatGroups(hashes, k);
      InConcat(Groups(hashes, k), i, g);
    }
  }

  lemma {:induction false} InConcat(gs: seq<seq<Text>>, i: nat, h: Text)
    requires i < |gs| && h in gs[i]
    ensures h in Concat(gs)
  {
    if i > 0 { InConcat(gs[1..], i - 1, h); }
  }

  lemma EventsSay(l: Limits, domain: Domain, hashes: seq<Text>, events: seq<Event>)
    requires RoomFor(l, domain) > 0 && |events| == |Groups(hashes, RoomFor(l, domain))| && hashes != []
    requires forall i :: 0 <= i < |events| ==> SignedFor(l, domain, Groups(hashes, RoomFor(l, domain))[i], events[i])
    ensures forall i, h :: 0 <= i < |events| && h in Groups(hashes, RoomFor(l, domain))[i] ==> Says(l, domain, hashes, h, events[i])
    ensures forall i, g :: 0 <= i < |events| ==> (["x", g] in events[i].template.tags <==> g in Groups(hashes, RoomFor(l, domain))[i])
  {
    hide RoomFor, SignedFor, Says, Groups;
    var gs := Groups(hashes, RoomFor(l, domain));
    GroupSizes(hashes, RoomFor(l, domain));
    forall i | 0 <= i < |events|
      ensures forall h :: h in gs[i] ==> Says(l, domain, hashes, h, events[i])
      ensures forall g :: ["x", g] in events[i].template.tags <==> g in gs[i]
    {
      GroupWithin(hashes, RoomFor(l, domain), i);
      SignedSays(l, domain, hashes, gs[i], gs[i][0], events[i]);
      forall h | h in gs[i] ensures Says(l, domain, hashes, h, events[i]) {
        SignedSays(l, domain, hashes, gs[i], h, events[i]);
      }
    }
  }

  lemma AnswersIs(signer: (nat, Template) -> Option<Event>, verify: Event -> bool, n: nat, template: Template)
    ensures Answers(signer, verify, n, template) <==>
            signer(n, template).Some? && signer(n, template).value.template == template && verify(signer(n, template).value)
  {
  }

  lemma SignedCeiling(l: Limits, domain: Domain, group: seq<Text>, event: Event)
    requires SignedFor(l, domain, group, event)
    ensures FieldBytes(event) <= l.ceiling
  {
  }

  // ---- The whole batch ----

  /** First occurrences, in order. */
  function Dedup<T(==, !new)>(s: seq<T>): (r: seq<T>)
    ensures forall x :: x in r <==> x in s
    ensures forall i, j :: 0 <= i < j < |r| ==> r[i] != r[j]
  {
    if s == [] then []
    else
      var r := Dedup(s[..|s| - 1]);
      assert s == s[..|s| - 1] + [s[|s| - 1]];
      if s[|s| - 1] in r then r else r + [s[|s| - 1]]
  }

  /** Where a value first appears. */
  function FirstAt<T(==)>(s: seq<T>, x: T): nat
    requires x in s
    ensures FirstAt(s, x) < |s| && s[FirstAt(s, x)] == x && forall i :: 0 <= i < FirstAt(s, x) ==> s[i] != x
  {
    if s[0] == x then 0 else FirstAt(s[1..], x) + 1
  }

  /** The values come in the order of their first appearance. */
  lemma {:induction false} DedupOrder<T(!new)>(s: seq<T>, i: nat, j: nat)
    requires i < j < |Dedup(s)|
    ensures FirstAt(s, Dedup(s)[i]) < FirstAt(s, Dedup(s)[j])
  {
    var n := |s| - 1;
    var before := Dedup(s[..n]);
    assert s == s[..n] + [s[n]];
    FirstStays(s, Dedup(s)[i], n);
    if j < |before| {
      DedupOrder(s[..n], i, j);
      FirstStays(s, Dedup(s)[j], n);
    }
  }

  lemma FirstStays<T(!new)>(s: seq<T>, x: T, n: nat)
    requires n <= |s| && x in s
    ensures x in s[..n] ==> FirstAt(s[..n], x) == FirstAt(s, x)
    ensures x in s[..n] <==> FirstAt(s, x) < n
  {
    if x in s[..n] {
      var i := FirstAt(s[..n], x);
      assert s[i] == x;
    }
    var k := FirstAt(s, x);
    if k < n { assert s[..n][k] == x; }
  }

  /** Servers under one domain, or all those without one. */
  datatype Scope = Scope(domain: Domain, servers: seq<Text>)

  function InDomain(servers: seq<Text>, domainOf: Text -> Domain, domain: Domain): seq<Text> {
    if servers == [] then []
    else
      var rest := InDomain(servers[..|servers| - 1], domainOf, domain);
      if domainOf(servers[|servers| - 1]) == domain then rest + [servers[|servers| - 1]] else rest
  }

  function DomainList(servers: seq<Text>, domainOf: Text -> Domain): (r: seq<Domain>)
    ensures |r| == |servers| && forall i :: 0 <= i < |r| ==> r[i] == domainOf(servers[i])
  {
    seq(|servers|, i requires 0 <= i < |servers| => domainOf(servers[i]))
  }

  function Domains(servers: seq<Text>, domainOf: Text -> Domain): seq<Domain> {
    Dedup(DomainList(servers, domainOf))
  }

  lemma DomainListed(servers: seq<Text>, domainOf: Text -> Domain, s: Text)
    requires s in servers
    ensures domainOf(s) in Domains(servers, domainOf)
  {
    var j :| 0 <= j < |servers| && servers[j] == s;
    assert DomainList(servers, domainOf)[j] == domainOf(s);
  }

  /** The scopes in the order their first servers come. */
  function ScopesOf(servers: seq<Text>, domainOf: Text -> Domain): (r: seq<Scope>)
    ensures |r| == |Domains(servers, domainOf)|
    ensures forall i :: 0 <= i < |r| ==> r[i] == Scope(Domains(servers, domainOf)[i], InDomain(servers, domainOf, Domains(servers, domainOf)[i]))
  {
    var ds := Domains(servers, domainOf);
    seq(|ds|, i requires 0 <= i < |ds| => Scope(ds[i], InDomain(servers, domainOf, ds[i])))
  }

  lemma {:induction false} InDomainIs(servers: seq<Text>, domainOf: Text -> Domain, domain: Domain, s: Text)
    ensures s in InDomain(servers, domainOf, domain) <==> s in servers && domainOf(s) == domain
  {
    if servers != [] {
      var n := |servers| - 1;
      InDomainIs(servers[..n], domainOf, domain, s);
      assert servers == servers[..n] + [servers[n]];
    }
  }

  /** Every server is in the scope of its domain. */
  lemma ScopeOf(servers: seq<Text>, domainOf: Text -> Domain, s: Text) returns (i: nat)
    requires s in servers
    ensures i < |ScopesOf(servers, domainOf)| && s in ScopesOf(servers, domainOf)[i].servers
  {
    DomainListed(servers, domainOf, s);
    i :| 0 <= i < |Domains(servers, domainOf)| && Domains(servers, domainOf)[i] == domainOf(s);
    InDomainIs(servers, domainOf, domainOf(s), s);
  }

  /** The map from domain to servers, filled server by server. */
  method CollectScopes(servers: seq<Text>, domainOf: Text -> Domain) returns (scopes: seq<Scope>)
    ensures scopes == ScopesOf(servers, domainOf)
  {
    scopes := [];
    var i := 0;
    while i < |servers|
      invariant 0 <= i <= |servers|
      invariant scopes == ScopesOf(servers[..i], domainOf)
    {
      var domain := domainOf(servers[i]);
      var k := 0;
      while k < |scopes| && scopes[k].domain != domain
        invariant 0 <= k <= |scopes|
        invariant forall j :: 0 <= j < k ==> scopes[j].domain != domain
      {
        k := k + 1;
      }
      ScopesSnoc(servers[..i], servers[i], domainOf, k);
      assert servers[..i + 1] == servers[..i] + [servers[i]];
      if k < |scopes| {
        scopes := scopes[k := Scope(domain, scopes[k].servers + [servers[i]])];
      } else {
        scopes := scopes + [Scope(domain, [servers[i]])];
      }
      i := i + 1;
    }
    assert servers[..i] == servers;
  }

  lemma ScopesSnoc(servers: seq<Text>, s: Text, domainOf: Text -> Domain, k: nat)
    requires k <= |ScopesOf(servers, domainOf)|
    requires forall j :: 0 <= j < k ==> ScopesOf(servers, domainOf)[j].domain != domainOf(s)
    requires k < |ScopesOf(servers, domainOf)| ==> ScopesOf(servers, domainOf)[k].domain == domainOf(s)
    ensures var had := ScopesOf(servers, domainOf);
      ScopesOf(servers + [s], domainOf) ==
      if k < |had| then had[k := Scope(domainOf(s), had[k].servers + [s])] else had + [Scope(domainOf(s), [s])]
  {
    var more, d := servers + [s], domainOf(s);
    var had, ds := ScopesOf(servers, domainOf), Domains(servers, domainOf);
    var grown := ScopesOf(more, domainOf);
    DomainsSnoc(servers, s, domainOf);
    DomainsOnce(servers, domainOf);
    hide Domains, InDomain, ScopesOf;
    if k == |ds| {
      assert d !in ds by {
        assert forall j :: 0 <= j < |ds| ==> had[j].domain == ds[j];
      }
      NoneInDomain(servers, domainOf, d);
      InDomainSnoc(servers, s, domainOf, d);
    } else {
      assert d == ds[k];
    }
    forall i | 0 <= i < |ds| ensures grown[i] == if i == k then Scope(d, had[i].servers + [s]) else had[i] {
      InDomainSnoc(servers, s, domainOf, ds[i]);
    }
    if k == |ds| {
      assert [] + [s] == [s];
      assert |grown| == |ds| + 1 && grown[|ds|] == Scope(d, [s]);
      assert grown == had + [Scope(d, [s])];
    } else {
      assert grown == had[k := Scope(d, had[k].servers + [s])];
    }
  }

  lemma DomainsOnce(servers: seq<Text>, domainOf: Text -> Domain)
    ensures forall i, j :: 0 <= i < j < |Domains(servers, domainOf)| ==> Domains(servers, domainOf)[i] != Domains(servers, domainOf)[j]
  {
  }

  lemma DomainsSnoc(servers: seq<Text>, s: Text, domainOf: Text -> Domain)
    ensures var ds := Domains(servers, domainOf);
      Domains(servers + [s], domainOf) == if domainOf(s) in ds then ds else ds + [domainOf(s)]
  {
    var a, b := DomainList(servers, domainOf), DomainList(servers + [s], domainOf);
    assert b == a + [domainOf(s)] && b[..|a|] == a;
  }

  lemma InDomainSnoc(servers: seq<Text>, s: Text, domainOf: Text -> Domain, e: Domain)
    ensures InDomain(servers + [s], domainOf, e) ==
            if domainOf(s) == e then InDomain(servers, domainOf, e) + [s] else InDomain(servers, domainOf, e)
  {
    assert (servers + [s])[..|servers|] == servers;
  }

  lemma {:induction false} NoneInDomain(servers: seq<Text>, domainOf: Text -> Domain, domain: Domain)
    requires domain !in Domains(servers, domainOf)
    ensures InDomain(servers, domainOf, domain) == []
  {
    if InDomain(servers, domainOf, domain) != [] {
      var s := InDomain(servers, domainOf, domain)[0];
      InDomainIs(servers, domainOf, domain, s);
      DomainListed(servers, domainOf, s);
    }
  }

  datatype Batch = Batch(eventCount: nat, headers: map<Text, map<Text, Event>>)

  /** `event` allows uploading `h` to the servers of `domain`. */
  ghost predicate Authorizes(l: Limits, domain: Domain, hashes: seq<Text>, h: Text, event: Event) {
    exists group :: h in group && (forall g :: g in group ==> g in hashes) && SignedFor(l, domain, group, event)
  }

  /** No header is for a hash or a scope it does not name. */
  ghost predicate Sound(l: Limits, domainOf: Text -> Domain, hashes: seq<Text>, headers: map<Text, map<Text, Event>>) {
    forall s, h :: s in headers && h in headers[s] ==> Authorizes(l, domainOf(s), hashes, h, headers[s][h])
  }

  ghost predicate Has(headers: map<Text, map<Text, Event>>, s: Text, h: Text) {
    s in headers && h in headers[s]
  }

  ghost predicate Filled(headers: map<Text, map<Text, Event>>, servers: seq<Text>, hashes: seq<Text>) {
    forall s, h :: s in servers && h in hashes ==> Has(headers, s, h)
  }

  ghost predicate Includes(a: map<Text, map<Text, Event>>, b: map<Text, map<Text, Event>>) {
    forall s, h :: Has(a, s, h) ==> Has(b, s, h)
  }

  lemma FilledStays(a: map<Text, map<Text, Event>>, b: map<Text, map<Text, Event>>, servers: seq<Text>, hashes: seq<Text>)
    requires Filled(a, servers, hashes) && Includes(a, b)
    ensures Filled(b, servers, hashes)
  {
  }

  /** How many events the scopes need. */
  function EventTotal(l: Limits, scopes: seq<Scope>, hashes: seq<Text>): nat {
    if scopes == [] then 0
    else
      var last := scopes[|scopes| - 1];
      var k := RoomFor(l, last.domain);
      EventTotal(l, scopes[..|scopes| - 1], hashes) + if k == 0 then 0 else |Groups(hashes, k)|
  }

  lemma EventTotalNone(l: Limits, hashes: seq<Text>)
    ensures EventTotal(l, [], hashes) == 0
  {
  }

  lemma EventTotalStep(l: Limits, scopes: seq<Scope>, i: nat, hashes: seq<Text>)
    requires i < |scopes| && RoomFor(l, scopes[i].domain) > 0
    ensures EventTotal(l, scopes[..i + 1], hashes) == EventTotal(l, scopes[..i], hashes) + |Groups(hashes, RoomFor(l, scopes[i].domain))|
  {
    hide RoomFor, Groups;
    assert scopes[..i + 1][..i] == scopes[..i];
  }

  /** Put one event's header under each server and hash of its group. */
  method SetHeaders(headers: map<Text, map<Text, Event>>, servers: seq<Text>, group: seq<Text>, event: Event)
    returns (r: map<Text, map<Text, Event>>)
    ensures forall s, h :: Has(r, s, h) <==> Has(headers, s, h) || (s in servers && h in group)
    ensures forall s, h :: Has(r, s, h) ==> r[s][h] == if s in servers && h in group then event else if Has(headers, s, h) then headers[s][h] else event
  {
    r := headers;
    var i := 0;
    while i < |servers|
      invariant 0 <= i <= |servers|
      invariant forall s, h :: Has(r, s, h) <==> Has(headers, s, h) || (s in servers[..i] && h in group)
      invariant forall s, h :: Has(r, s, h) ==> r[s][h] == if s in servers[..i] && h in group then event else if Has(headers, s, h) then headers[s][h] else event
    {
      var entry: map<Text, Event> := if servers[i] in r then r[servers[i]] else map[];
      ghost var before := entry;
      var j := 0;
      while j < |group|
        invariant 0 <= j <= |group|
        invariant forall h :: h in entry <==> h in before || h in group[..j]
        invariant forall h :: h in entry ==> entry[h] == if h in group[..j] then event else before[h]
      {
        entry := entry[group[j] := event];
        assert group[..j + 1] == group[..j] + [group[j]];
        j := j + 1;
      }
      assert group[..j] == group;
      assert servers[..i + 1] == servers[..i] + [servers[i]];
      r := r[servers[i] := entry];
      i := i + 1;
    }
    assert servers[..i] == servers;
  }

  /** The first `n` scopes can be served, one after another. */
  ghost predicate AllServable(l: Limits, scopes: seq<Scope>, n: nat, hashes: seq<Text>,
                              signer: (nat, Template) -> Option<Event>, verify: Event -> bool)
    requires n <= |scopes|
  {
    forall i :: 0 <= i < n ==> Servable(l, scopes[i].domain, hashes, signer, verify, EventTotal(l, scopes[..i], hashes))
  }

  /** Pack the hashes for every scope in turn. */
  method PackScopes(l: Limits, scopes: seq<Scope>, domainOf: Text -> Domain, hashes: seq<Text>,
                    signer: (nat, Template) -> Option<Event>, verify: Event -> bool) returns (r: Result<Batch>)
    requires AllValid(hashes) && hashes != [] && l.maxHashes > 0
    requires forall e :: verify(e) ==> FixedWidths(e)
    requires forall i, s :: 0 <= i < |scopes| && s in scopes[i].servers ==> domainOf(s) == scopes[i].domain
    ensures r.Ok? ==> Sound(l, domainOf, hashes, r.value.headers) && r.value.eventCount == EventTotal(l, scopes, hashes)
    ensures r.Ok? ==> forall i :: 0 <= i < |scopes| ==> Filled(r.value.headers, scopes[i].servers, hashes)
    ensures r.Ok? ==> forall i :: 0 <= i < |scopes| ==> RoomFor(l, scopes[i].domain) > 0
    ensures r.Err? ==> r.failure in {CannotFitOne, SignerRefused, TemplateChanged}
    ensures r == Err(CannotFitOne) ==> exists i :: 0 <= i < |scopes| && RoomFor(l, scopes[i].domain) == 0
    ensures r.Ok? <==> AllServable(l, scopes, |scopes|, hashes, signer, verify)
    ensures r.Err? && r.failure != CannotFitOne ==> exists n, template :: !Answers(signer, verify, n, template)
  {
    hide Servable, Answers, RoomFor, SignedFor, Filled, Includes, EventTotal, AllValid;
    assert scopes[..0] == [];
    EventTotalNone(l, hashes);
    var headers: map<Text, map<Text, Event>> := map[];
    var count, i := 0, 0;
    while i < |scopes|
      invariant 0 <= i <= |scopes|
      invariant Sound(l, domainOf, hashes, headers) && count == EventTotal(l, scopes[..i], hashes)
      invariant forall j :: 0 <= j < i ==> Filled(headers, scopes[j].servers, hashes)
      invariant forall j :: 0 <= j < i ==> RoomFor(l, scopes[j].domain) > 0
      invariant AllServable(l, scopes, i, hashes, signer, verify)
    {
      var scope := scopes[i];
      var packed := PackScope(l, scope.domain, hashes, signer, verify, count);
      if packed.Err? {
        return Err(packed.failure);
      }
      hide Sound;
      EventTotalStep(l, scopes, i, hashes);
      ghost var before := headers;
      headers := PlaceEvents(l, scope, domainOf, hashes, packed.value, headers);
      forall j | 0 <= j < i ensures Filled(headers, scopes[j].servers, hashes) {
        FilledStays(before, headers, scopes[j].servers, hashes);
      }
      count := count + |packed.value|;
      i := i + 1;
    }
    assert scopes[..i] == scopes;
    r := Ok(Batch(count, headers));
  }

  /** Place the events of one scope, group by group. */
  method PlaceEvents(l: Limits, scope: Scope, domainOf: Text -> Domain, hashes: seq<Text>, events: seq<Event>, headers: map<Text, map<Text, Event>>)
    returns (r: map<Text, map<Text, Event>>)
    requires RoomFor(l, scope.domain) > 0 && |events| == |Groups(hashes, RoomFor(l, scope.domain))|
    requires forall i :: 0 <= i < |events| ==> SignedFor(l, scope.domain, Groups(hashes, RoomFor(l, scope.domain))[i], events[i])
    requires forall s :: s in scope.servers ==> domainOf(s) == scope.domain
    requires Sound(l, domainOf, hashes, headers)
    ensures Sound(l, domainOf, hashes, r) && Includes(headers, r) && Filled(r, scope.servers, hashes)
  {
    hide RoomFor, SignedFor;
    var groups := Groups(hashes, RoomFor(l, scope.domain));
    r := headers;
    var i := 0;
    while i < |events|
      invariant 0 <= i <= |events|
      invariant Sound(l, domainOf, hashes, r)
      invariant forall s, h :: Has(headers, s, h) ==> Has(r, s, h)
      invariant forall s, j, h :: s in scope.servers && 0 <= j < i && h in groups[j] ==> Has(r, s, h)
    {
      ghost var before := r;
      r := SetHeaders(r, scope.servers, groups[i], events[i]);
      GroupWithin(hashes, RoomFor(l, scope.domain), i);
      SoundAfter(l, domainOf, hashes, before, r, scope, groups[i], events[i]);
      i := i + 1;
    }
    ConcatGroups(hashes, RoomFor(l, scope.domain));
    forall s, h | s in scope.servers && h in hashes ensures Has(r, s, h) {
      var j := InSomeGroup(groups, h);
    }
  }

  lemma SoundAfter(l: Limits, domainOf: Text -> Domain, hashes: seq<Text>, before: map<Text, map<Text, Event>>, after: map<Text, map<Text, Event>>,
                   scope: Scope, group: seq<Text>, event: Event)
    requires Sound(l, domainOf, hashes, before) && SignedFor(l, scope.domain, group, event) && forall g :: g in group ==> g in hashes
    requires forall s :: s in scope.servers ==> domainOf(s) == scope.domain
    requires forall s, h :: Has(after, s, h) <==> Has(before, s, h) || (s in scope.servers && h in group)
    requires forall s, h :: Has(after, s, h) ==> after[s][h] == if s in scope.servers && h in group then event else if Has(before, s, h) then before[s][h] else event
    ensures Sound(l, domainOf, hashes, after)
  {
    hide SignedFor;
    forall s, h | s in after && h in after[s] ensures Authorizes(l, domainOf(s), hashes, h, after[s][h]) {
      assert Has(after, s, h);
      if s in scope.servers && h in group {
        assert Authorizes(l, scope.domain, hashes, h, event);
      }
    }
  }

  lemma {:induction false} InSomeGroup(gs: seq<seq<Text>>, h: Text) returns (j: nat)
    requires h in Concat(gs)
    ensures j < |gs| && h in gs[j]
  {
    if h in gs[0] {
      j := 0;
    } else {
      j := InSomeGroup(gs[1..], h);
      j := j + 1;
    }
  }

  /** `createUploadAuthorizationBatch`: every server and hash gets a header that names the hash for
      the server's scope within both ceilings, from one event for each group of each scope; the
      size check after signing never fails. */
  method CreateBatch(options: Limits, given: seq<Text>, servers: seq<Text>, domainOf: Text -> Domain,
                     signer: (nat, Template) -> Option<Event>, verify: Event -> bool) returns (r: Result<Batch>)
    requires forall e :: verify(e) ==> FixedWidths(e)
    ensures r.Ok? ==> options.maxHashes > 0 && options.ceiling > 0 && given != [] && AllValid(given)
    ensures r.Ok? ==> Sound(options, domainOf, given, r.value.headers)
    ensures r.Ok? ==> forall s, h :: s in servers && h in given ==> Has(r.value.headers, s, h)
    ensures r.Ok? ==> forall s, h :: Has(r.value.headers, s, h) ==> Says(options, domainOf(s), given, h, r.value.headers[s][h])
    ensures r.Ok? ==> r.value.eventCount == EventTotal(options, ScopesOf(servers, domainOf), Dedup(given))
    ensures r == Err(InvalidLimits) <==> options.maxHashes == 0 || options.ceiling == 0
    ensures r == Err(InvalidHashes) <==> options.maxHashes > 0 && options.ceiling > 0 && (given == [] || !AllValid(given))
    ensures r == Err(CannotFitOne) ==> exists s :: s in servers && RoomFor(options, domainOf(s)) == 0
    ensures r != Err(Oversized)
    ensures r.Ok? <==> && options.maxHashes > 0 && options.ceiling > 0 && given != [] && AllValid(given)
                       && var scopes := ScopesOf(servers, domainOf); AllServable(options, scopes, |scopes|, Dedup(given), signer, verify)
    ensures options.maxHashes > 0 && options.ceiling > 0 && given != [] && AllValid(given)
              && (forall n, template :: Answers(signer, verify, n, template))
            ==> && (r.Ok? <==> forall s :: s in servers ==> RoomFor(options, domainOf(s)) > 0)
                && (r.Err? ==> r == Err(CannotFitOne))
  {
    hide Says, AllServable, Answers, RoomFor, SignedFor, ValidHash;
    if options.maxHashes == 0 || options.ceiling == 0 {
      return Err(InvalidLimits);
    }
    var hashes := Dedup(given);
    DedupValid(given);
    if hashes == [] || !AllValid(hashes) {
      return Err(InvalidHashes);
    }
    var scopes := CollectScopes(servers, domainOf);
    forall i, s | 0 <= i < |scopes| ensures s in scopes[i].servers <==> s in servers && domainOf(s) == scopes[i].domain {
      InDomainIs(servers, domainOf, scopes[i].domain, s);
    }
    r := PackScopes(options, scopes, domainOf, hashes, signer, verify);
    if r.Ok? {
      SoundSays(options, domainOf, hashes, given, r.value.headers);
      forall s | s in servers ensures RoomFor(options, domainOf(s)) > 0 {
        var i := ScopeOf(servers, domainOf, s);
        assert scopes[i].domain == domainOf(s);
      }
      forall s, h | s in servers && h in given ensures Has(r.value.headers, s, h) {
        var i := ScopeOf(servers, domainOf, s);
        assert Filled(r.value.headers, scopes[i].servers, hashes);
      }
    } else if r.failure == CannotFitOne {
      var i :| 0 <= i < |scopes| && RoomFor(options, scopes[i].domain) == 0;
      var s := SomeServer(servers, domainOf, scopes[i].domain);
    }
  }

  lemma SoundSays(l: Limits, domainOf: Text -> Domain, hashes: seq<Text>, given: seq<Text>, headers: map<Text, map<Text, Event>>)
    requires Sound(l, domainOf, hashes, headers) && forall h :: h in hashes ==> h in given
    ensures Sound(l, domainOf, given, headers)
    ensures forall s, h :: Has(headers, s, h) ==> Says(l, domainOf(s), given, h, headers[s][h])
  {
    hide SignedFor, Says;
    forall s, h | s in headers && h in headers[s]
      ensures Authorizes(l, domainOf(s), given, h, headers[s][h]) && Says(l, domainOf(s), given, h, headers[s][h])
    {
      var group :| h in group && (forall g :: g in group ==> g in hashes) && SignedFor(l, domainOf(s), group, headers[s][h]);
      SignedSays(l, domainOf(s), given, group, h, headers[s][h]);
    }
  }

  lemma DedupValid(given: seq<Text>)
    ensures Dedup(given) == [] <==> given == []
    ensures AllValid(Dedup(given)) <==> AllValid(given)
  {
    assert given != [] ==> given[0] in Dedup(given);
    if AllValid(Dedup(given)) {
      forall i | 0 <= i < |given| ensures ValidHash(given[i]) {
        assert given[i] in Dedup(given);
      }
    }
    forall i | 0 <= i < |Dedup(given)| ensures Dedup(given)[i] in given {
    }
  }

  lemma SomeServer(servers: seq<Text>, domainOf: Text -> Domain, domain: Domain) returns (s: Text)
    requires domain in Domains(servers, domainOf)
    ensures s in servers && domainOf(s) == domain
  {
    assert domain in DomainList(servers, domainOf);
    var j :| 0 <= j < |servers| && DomainList(servers, domainOf)[j] == domain;
    s := servers[j];
  }
}
