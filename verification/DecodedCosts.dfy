/** What a decoded manifest costs, counted over the value the decoder sees. */
module DecodedCosts {
  import opened NameOrder
  import opened Manifests

  datatype Value = Text(text: string) | Number | Binary(length: nat) | List(items: seq<Value>) | Record(fields: seq<Field>)
  datatype Field = Field(key: string, value: Value)

  /** `decodedCost` */
  function Cost(v: Value): nat
    decreases v
  {
    match v
    case Text(text) => |Utf8(text)|
    case Number => 8
    case Binary(length) => length
    case List(items) => ItemsCost(items)
    case Record(fields) => FieldsCost(fields)
  }

  function ItemsCost(items: seq<Value>): nat
    decreases items
  {
    if items == [] then 0 else Cost(items[0]) + ItemsCost(items[1..])
  }

  function FieldsCost(fields: seq<Field>): nat
    decreases fields
  {
    if fields == [] then 0 else |Utf8(fields[0].key)| + Cost(fields[0].value) + FieldsCost(fields[1..])
  }

  /** The value `encodeManifest` encodes. */
  function LinkValue(l: Link): Value {
    Record([Field("h", Binary(32))]
      + (if l.bounds.Some? then
           [Field("m", Record([Field("count", Number), Field("first", Text(l.bounds.value.first)), Field("last", Text(l.bounds.value.last))]))]
         else [])
      + (if l.name.Some? then [Field("n", Text(l.name.value))] else [])
      + [Field("s", Number), Field("t", Number)])
  }

  function LinkValues(links: seq<Link>): (r: seq<Value>)
    ensures |r| == |links| && forall i :: 0 <= i < |links| ==> r[i] == LinkValue(links[i])
  {
    seq(|links|, i requires 0 <= i < |links| => LinkValue(links[i]))
  }

  function ManifestValue(m: Manifest): Value {
    Record([Field("l", List(LinkValues(m.links))), Field("t", Number)])
  }

  lemma {:induction false} FieldsCostAppend(a: seq<Field>, b: seq<Field>)
    ensures FieldsCost(a + b) == FieldsCost(a) + FieldsCost(b)
    decreases |a|
  {
    if a == [] {
      assert a + b == b;
    } else {
      FieldsCostAppend(a[1..], b);
      assert (a + b)[1..] == a[1..] + b;
    }
  }

  lemma FieldCost(key: string, v: Value)
    ensures FieldsCost([Field(key, v)]) == |Utf8(key)| + Cost(v)
  {
    assert [Field(key, v)][1..] == [];
  }

  lemma {:induction false} AsciiLength(s: string)
    requires forall i :: 0 <= i < |s| ==> s[i] < 128 as char
    ensures |Utf8(s)| == |s|
  {
    if s != "" { AsciiLength(s[1..]); }
  }

  lemma BoundsCost(b: Bounds)
    ensures Cost(Record([Field("count", Number), Field("first", Text(b.first)), Field("last", Text(b.last))])) == 22 + |Utf8(b.first)| + |Utf8(b.last)|
  {
    var x, y, z := [Field("count", Number)], [Field("first", Text(b.first))], [Field("last", Text(b.last))];
    AsciiLength("count");
    AsciiLength("first");
    AsciiLength("last");
    FieldCost("count", Number);
    FieldCost("first", Text(b.first));
    FieldCost("last", Text(b.last));
    FieldsCostAppend(x, y);
    FieldsCostAppend(x + y, z);
    assert [Field("count", Number), Field("first", Text(b.first)), Field("last", Text(b.last))] == x + y + z;
  }

  lemma LinkCostIs(l: Link)
    ensures Cost(LinkValue(l)) == LinkCost(l)
  {
    hide FieldsCost;
    var h, sizeAndType := [Field("h", Binary(32))], [Field("s", Number), Field("t", Number)];
    var m := if l.bounds.Some? then
           [Field("m", Record([Field("count", Number), Field("first", Text(l.bounds.value.first)), Field("last", Text(l.bounds.value.last))]))]
         else [];
    var n := if l.name.Some? then [Field("n", Text(l.name.value))] else [];
    KeyCosts();
    NoFields();
    FieldsCostAppend(h, m);
    FieldsCostAppend(h + m, n);
    FieldsCostAppend(h + m + n, sizeAndType);
    FieldCost("h", Binary(32));
    FieldsCostAppend([Field("s", Number)], [Field("t", Number)]);
    assert sizeAndType == [Field("s", Number)] + [Field("t", Number)];
    FieldCost("s", Number);
    FieldCost("t", Number);
    if l.bounds.Some? {
      BoundsCost(l.bounds.value);
      FieldCost("m", m[0].value);
    }
    if l.name.Some? {
      FieldCost("n", n[0].value);
    }
  }

  lemma NoFields()
    ensures FieldsCost([]) == 0
  {
  }

  lemma KeyCosts()
    ensures |Utf8("h")| == |Utf8("m")| == |Utf8("n")| == |Utf8("s")| == |Utf8("t")| == |Utf8("l")| == 1
  {
    AsciiLength("h");
    AsciiLength("m");
    AsciiLength("n");
    AsciiLength("s");
    AsciiLength("t");
    AsciiLength("l");
  }

  lemma {:induction false} LinksCostIs(links: seq<Link>)
    ensures ItemsCost(LinkValues(links)) == LinksCost(links)
  {
    hide LinkValue, LinkCost;
    if links != [] {
      LinkCostIs(links[0]);
      LinksCostIs(links[1..]);
      assert LinkValues(links)[1..] == LinkValues(links[1..]);
    }
  }

  /** The figure the writer's import compares with its ceiling is the cost of the whole value. */
  lemma DecodedCostIs(m: Manifest)
    ensures DecodedCost(m) == Cost(ManifestValue(m))
  {
    hide LinkValue;
    LinksCostIs(m.links);
    KeyCosts();
    var links := Field("l", List(LinkValues(m.links)));
    FieldCost("l", links.value);
    FieldCost("t", Number);
    FieldsCostAppend([links], [Field("t", Number)]);
    assert [links, Field("t", Number)] == [links] + [Field("t", Number)];
  }
}
