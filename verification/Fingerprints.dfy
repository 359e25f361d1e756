/** What a narinfo's fingerprint tells apart. */
module Fingerprints {
  import opened Manifests
  import opened Numerals
  import opened NarInfos
  import opened NarInfoTexts

  ghost predicate PathText(p: Text) {
    exists name :: p == "/nix/store/" + name && StoreNameText(name)
  }

  ghost predicate NamesText(references: seq<Text>) {
    forall i :: 0 <= i < |references| ==> StoreNameText(references[i])
  }

  /** What is signed is valid. */
  ghost predicate Signable(path: Text, hash: Text, references: seq<Text>) {
    PathText(path) && HashText(hash) && NamesText(references)
  }

  function PathOf(n: NarInfo): Text {
    match ValueOf(n, StorePath) case Str(text) => text case _ => ""
  }

  function HashOf(n: NarInfo): Text {
    match ValueOf(n, NarHash) case Str(text) => text case _ => ""
  }

  function SizeOf(n: NarInfo): nat {
    match ValueOf(n, NarSize) case Num(number) => number case _ => 0
  }

  function ReferencesIn(n: NarInfo): seq<Text> {
    match ValueOf(n, References) case Strs(items) => items case _ => []
  }

  /** A parsed narinfo's fingerprint is that of its path, hash, size and references. */
  lemma ParsedFingerprint(text: Text)
    requires Parse(text).Some?
    ensures var n := Parse(text).value;
      && n.fingerprint == FingerprintText(PathOf(n), HashOf(n), SizeOf(n), ReferencesIn(n))
      && Signable(PathOf(n), HashOf(n), ReferencesIn(n))
  {
    var items := ParsedIsPrinted(text);
    PrintedParses(items);
    ItemsSignable(items);
    hide Parse, GoodItems, Print, FingerprintText, PathText, HashText, NamesText, ValueIn, SignaturesOf;
  }

  lemma ItemsSignable(items: seq<Item>)
    requires GoodItems(items)
    ensures ValueIn(items, StorePath).Str? && PathText(ValueIn(items, StorePath).text)
    ensures ValueIn(items, NarHash).Str? && HashText(ValueIn(items, NarHash).text)
    ensures ValueIn(items, References).Strs? && NamesText(ValueIn(items, References).items)
  {
    hide GoodItems, TextsOf, ValueIn, PathText, HashText, NamesText, Shows;
    assert REQUIRED[0] == StorePath && REQUIRED[5] == NarHash && REQUIRED[7] == References;
    RequiredShown(items, 0);
    PathShown(TextsOf(items)[StorePath], ValueIn(items, StorePath));
    RequiredShown(items, 5);
    HashShown(TextsOf(items)[NarHash], ValueIn(items, NarHash));
    RequiredShown(items, 7);
    ReferencesShown(TextsOf(items)[References], ValueIn(items, References));
  }

  lemma RequiredShown(items: seq<Item>, i: nat)
    requires GoodItems(items) && i < |REQUIRED|
    ensures REQUIRED[i] in TextsOf(items) && Shows(REQUIRED[i], TextsOf(items)[REQUIRED[i]], ValueIn(items, REQUIRED[i]))
  {
    hide Shows;
    WrittenShown(items, REQUIRED[i]);
  }

  lemma PathShown(text: Text, v: Value)
    requires Shows(StorePath, text, v)
    ensures v == Str(text) && PathText(text)
  {
    hide StoreNameText;
  }

  lemma HashShown(text: Text, v: Value)
    requires Shows(NarHash, text, v)
    ensures v == Str(text) && HashText(text)
  {
    hide HashText;
  }

  lemma ReferencesShown(text: Text, v: Value)
    requires Shows(References, text, v)
    ensures v.Strs? && NamesText(v.items)
  {
    hide StoreNameText;
  }

  // ---- Cutting at a sign ----

  lemma CutAt(a: Text, x: Text, b: Text, y: Text, c: char)
    requires c !in a && c !in b && a + [c] + x == b + [c] + y
    ensures a == b && x == y
  {
    var s := a + [c] + x;
    assert s == a + ([c] + x) && s == b + ([c] + y);
    UpToAt(a, [c] + x, c);
    UpToAt(b, [c] + y, c);
    assert s[|a| + 1..] == x && s[|b| + 1..] == y;
  }

  lemma NoSemicolon(hash: Text, n: nat)
    requires HashText(hash)
    ensures ';' !in hash && ';' !in Decimal(n)
  {
    HashIff(hash);
    DecimalReads(n);
    hide HashText;
    assert forall i :: 0 <= i < 7 ==> hash[i] == "sha256:"[i];
  }

  /** Where neither store path has a semicolon, equal fingerprints mean equal paths, hashes and sizes,
      and references that read the same with commas between them. */
  lemma FingerprintCuts(p: Text, h: Text, s: nat, r: seq<Text>, p': Text, h': Text, s': nat, r': seq<Text>)
    requires HashText(h) && HashText(h') && ';' !in p && ';' !in p'
    ensures FingerprintText(p, h, s, r) == FingerprintText(p', h', s', r')
       <==> p == p' && h == h' && s == s' && Listed(r) == Listed(r')
  {
    hide HashText, Listed, Decimal;
    if FingerprintText(p, h, s, r) == FingerprintText(p', h', s', r') {
      NoSemicolon(h, s);
      NoSemicolon(h', s');
      FingerprintTail(p, h, s, r);
      FingerprintTail(p', h', s', r');
      var x, x' := Decimal(s) + [';'] + Listed(r), Decimal(s') + [';'] + Listed(r');
      CutAt("1", p + [';'] + (h + [';'] + x), "1", p' + [';'] + (h' + [';'] + x'), ';');
      CutAt(p, h + [';'] + x, p', h' + [';'] + x', ';');
      CutAt(h, x, h', x', ';');
      CutAt(Decimal(s), Listed(r), Decimal(s'), Listed(r'), ';');
      DecimalReads(s);
      DecimalReads(s');
    }
  }

  lemma FingerprintTail(p: Text, h: Text, s: nat, r: seq<Text>)
    ensures FingerprintText(p, h, s, r) == "1" + [';'] + (p + [';'] + (h + [';'] + (Decimal(s) + [';'] + Listed(r))))
  {
    hide Listed, Decimal;
    var tail := Decimal(s) + [';'] + Listed(r);
    assert p + ";" + (h + ";" + tail) == p + ";" + h + ";" + Decimal(s) + ";" + Listed(r);
    assert "1;" == "1" + [';'];
  }

  // ---- References with commas between them ----

  ghost predicate NoCommas(references: seq<Text>) {
    forall i :: 0 <= i < |references| ==> ',' !in references[i]
  }

  /** Without commas in them, references that read the same are the same. */
  lemma {:induction false} ListedIff(r: seq<Text>, r': seq<Text>)
    requires NamesText(r) && NamesText(r') && NoCommas(r) && NoCommas(r')
    ensures Listed(r) == Listed(r') <==> r == r'
    decreases |r|
  {
    hide StoreNameText;
    if r == [] || r' == [] {
      ListedEmpty(r);
      ListedEmpty(r');
    } else if |r| == 1 || |r'| == 1 {
      CommasIn(r);
      CommasIn(r');
    } else {
      ListedIff(r[1..], r'[1..]);
      if Listed(r) == Listed(r') {
        CutAt(r[0], Listed(r[1..]), r'[0], Listed(r'[1..]), ',');
        assert r == [r[0]] + r[1..] && r' == [r'[0]] + r'[1..];
      }
    }
  }

  lemma ListedEmpty(r: seq<Text>)
    requires NamesText(r)
    ensures Listed(r) == "" <==> r == []
  {
    hide StoreNameText;
    if r != [] { NoSpaceInName(r[0]); }
  }

  lemma CommasIn(r: seq<Text>)
    requires r != [] && NoCommas(r)
    ensures ',' in Listed(r) <==> |r| > 1
    ensures |r| == 1 ==> Listed(r) == r[0]
  {
    if |r| > 1 { assert Listed(r)[|r[0]|] == ','; }
  }

  /** A narinfo without semicolons in its path or commas in its references. */
  ghost predicate Plain(n: NarInfo) {
    ';' !in PathOf(n) && NoCommas(ReferencesIn(n))
  }

  /** Among such narinfos equal fingerprints mean equal path, hash, size and references. */
  lemma FingerprintIff(a: Text, b: Text)
    requires Parse(a).Some? && Parse(b).Some? && Plain(Parse(a).value) && Plain(Parse(b).value)
    ensures var m, n := Parse(a).value, Parse(b).value;
      m.fingerprint == n.fingerprint <==>
        ValueOf(m, StorePath) == ValueOf(n, StorePath) && ValueOf(m, NarHash) == ValueOf(n, NarHash)
        && ValueOf(m, NarSize) == ValueOf(n, NarSize) && ValueOf(m, References) == ValueOf(n, References)
  {
    var m, n := Parse(a).value, Parse(b).value;
    ParsedFingerprint(a);
    ParsedFingerprint(b);
    ParsedKinds(a);
    ParsedKinds(b);
    hide Parse, FingerprintText, Listed, HashText, NamesText, NoCommas, ValueOf;
    FingerprintCuts(PathOf(m), HashOf(m), SizeOf(m), ReferencesIn(m), PathOf(n), HashOf(n), SizeOf(n), ReferencesIn(n));
    ListedIff(ReferencesIn(m), ReferencesIn(n));
  }

  lemma ParsedKinds(text: Text)
    requires Parse(text).Some?
    ensures var n := Parse(text).value;
      ValueOf(n, StorePath).Str? && ValueOf(n, NarHash).Str? && ValueOf(n, NarSize).Num? && ValueOf(n, References).Strs?
  {
    var items := ParsedIsPrinted(text);
    PrintedParses(items);
    hide Parse, GoodItems, Print, FingerprintText;
  }

  // ---- Where it does not tell apart ----

  /** Store names may have commas, so two of them with a comma between are one. */
  lemma TwoAreOne(a: Text, b: Text)
    requires StoreNameText(a) && StoreNameText(b)
    ensures StoreNameText(a + "," + b)
  {
    StoreNameIff(a);
    StoreNameIff(b);
    StoreNameIff(a + "," + b);
    hide StoreNameText, IsSpace;
    NotSpaces();
    var s := a + "," + b;
    forall i | 0 <= i < 32 ensures LowerOrDigit(s[i]) {
      assert s[i] == a[i];
    }
    forall i | 33 <= i < |s| ensures s[i] != '/' && !IsSpace(s[i]) {
      if i < |a| { assert s[i] == a[i]; }
      if i > |a| {
        var c := b[i - |a| - 1];
        assert s[i] == c;
        assert LowerOrDigit(c) || c == '-' || i - |a| - 1 >= 33;
      }
    }
    assert s[32] == a[32];
  }

  lemma NotSpaces()
    ensures !IsSpace(',') && !IsSpace('-') && forall c :: LowerOrDigit(c) ==> !IsSpace(c) && c != '/'
  {
  }

  lemma {:induction false} ListedIsName(r: seq<Text>)
    requires r != [] && NamesText(r)
    ensures StoreNameText(Listed(r))
    decreases |r|
  {
    hide StoreNameText;
    if |r| > 1 {
      ListedIsName(r[1..]);
      TwoAreOne(r[0], Listed(r[1..]));
    }
  }

  /** One reference, or none, that cannot be cut at a comma into two. */
  ghost predicate Whole(r: seq<Text>) {
    && |r| <= 1
    && (r != [] ==> forall i :: 0 <= i < |r[0]| && r[0][i] == ',' ==> !(StoreNameText(r[0][..i]) && StoreNameText(r[0][i + 1..])))
  }

  /** References can be told from the fingerprint exactly when they are whole. */
  lemma WholeIff(r: seq<Text>)
    requires NamesText(r)
    ensures (forall other :: NamesText(other) && Listed(other) == Listed(r) ==> other == r) <==> Whole(r)
  {
    hide StoreNameText;
    if Whole(r) {
      forall other | NamesText(other) && Listed(other) == Listed(r) ensures other == r {
        WholeIsAlone(r, other);
      }
    } else if |r| > 1 {
      var other := [r[0] + "," + r[1]] + r[2..];
      MergedListed(r);
      assert NamesText(other) && |other| != |r|;
    } else {
      var i :| 0 <= i < |r[0]| && r[0][i] == ',' && StoreNameText(r[0][..i]) && StoreNameText(r[0][i + 1..]);
      var other := [r[0][..i], r[0][i + 1..]];
      assert other[1..] == [r[0][i + 1..]];
      assert r[0] == r[0][..i] + "," + r[0][i + 1..];
      assert NamesText(other) && |other| != |r|;
    }
  }

  lemma WholeIsAlone(r: seq<Text>, other: seq<Text>)
    requires NamesText(r) && NamesText(other) && Whole(r) && Listed(other) == Listed(r)
    ensures other == r
  {
    hide StoreNameText;
    ListedEmpty(r);
    ListedEmpty(other);
    if |other| > 1 && |r| == 1 { NotWhole(r, other); }
  }

  lemma NotWhole(r: seq<Text>, other: seq<Text>)
    requires NamesText(other) && |other| > 1 && |r| == 1 && Listed(other) == r[0]
    ensures !Whole(r)
  {
    hide StoreNameText;
    var i := |other[0]|;
    ListedIsName(other[1..]);
    assert r[0] == other[0] + "," + Listed(other[1..]);
    assert r[0][i] == ',' && r[0][..i] == other[0] && r[0][i + 1..] == Listed(other[1..]);
  }

  lemma MergedListed(r: seq<Text>)
    requires |r| > 1 && NamesText(r)
    ensures var other := [r[0] + "," + r[1]] + r[2..]; NamesText(other) && Listed(other) == Listed(r)
  {
    hide StoreNameText;
    var other := [r[0] + "," + r[1]] + r[2..];
    TwoAreOne(r[0], r[1]);
    forall i | 0 <= i < |other| ensures StoreNameText(other[i]) {
      if i > 0 { assert other[i] == r[i + 1]; }
    }
    assert other[1..] == r[2..] && r[1..][0] == r[1] && r[1..][1..] == r[2..];
    if |r| > 2 {
      assert r[0] + "," + (r[1] + "," + Listed(r[2..])) == r[0] + "," + r[1] + "," + Listed(r[2..]);
    }
  }

  /** Two valid contents with one fingerprint that differ in everything, by a name with semicolons. */
  lemma SemicolonsCollide(digest: Text)
    requires |digest| == 32 && forall i :: 0 <= i < 32 ==> LowerOrDigit(digest[i])
    ensures var p, b := "/nix/store/" + digest + "-a", digest + "-b";
      var p', r := p + ";sha256:1;1;" + b, b + ";sha256:2;2;";
      && Signable(p', "sha256:2", []) && Signable(p, "sha256:1", [r])
      && FingerprintText(p', "sha256:2", 2, []) == FingerprintText(p, "sha256:1", 1, [r])
  {
    CollidingNames(digest);
    ShortHashes();
    hide FingerprintText, HashText, PathText, StoreNameText;
    SameText("/nix/store/" + digest + "-a", digest + "-b");
  }

  lemma ShortHashes()
    ensures HashText("sha256:1") && HashText("sha256:2")
  {
    assert "sha256:1" == "sha256:" + "1" && "sha256:2" == "sha256:" + "2";
  }

  lemma SameText(p: Text, b: Text)
    ensures FingerprintText(p + ";sha256:1;1;" + b, "sha256:2", 2, []) == FingerprintText(p, "sha256:1", 1, [b + ";sha256:2;2;"])
  {
    hide FingerprintText;
    FingerprintMiddle(p + ";sha256:1;1;" + b, "sha256:2", 2, [], ";sha256:2;2;");
    FingerprintMiddle(p, "sha256:1", 1, [b + ";sha256:2;2;"], ";sha256:1;1;");
    Regroup("1;", p, ";sha256:1;1;", b, ";sha256:2;2;");
  }

  lemma Regroup(a: Text, p: Text, m: Text, b: Text, t: Text)
    ensures a + (p + m + b) + t + "" == a + p + m + (b + t)
  {
  }

  lemma FingerprintMiddle(p: Text, h: Text, n: nat, r: seq<Text>, middle: Text)
    requires n < 10 && middle == ";" + h + ";" + [(48 + n) as char] + ";"
    ensures FingerprintText(p, h, n, r) == "1;" + p + middle + Listed(r)
  {
    hide Listed;
    assert Decimal(n) == [(48 + n) as char];
    assert "1;" + p + (";" + h + ";" + Decimal(n) + ";") == "1;" + p + ";" + h + ";" + Decimal(n) + ";";
  }

  ghost predicate NameOk(name: Text) {
    forall i :: 0 <= i < |name| ==> name[i] != '/' && !IsSpace(name[i])
  }

  lemma LiteralNames()
    ensures NameOk("a") && NameOk("-b") && NameOk("b;sha256:2;2;") && NameOk("a;sha256:1;1;")
  {
  }

  lemma CollidingNames(digest: Text)
    requires |digest| == 32 && forall i :: 0 <= i < 32 ==> LowerOrDigit(digest[i])
    ensures var p, b := "/nix/store/" + digest + "-a", digest + "-b";
      PathText(p) && PathText(p + ";sha256:1;1;" + b) && StoreNameText(b + ";sha256:2;2;")
  {
    NotSpaces();
    LiteralNames();
    hide IsSpace, StoreNameText;
    var b := digest + "-b";
    var name := "a;sha256:1;1;" + b;
    assert NameOk(b) && NameOk(name);
    PlainName(digest, "a");
    PlainName(digest, "b;sha256:2;2;");
    PlainName(digest, name);
    hide NameOk;
    assert "/nix/store/" + digest + "-a" == "/nix/store/" + (digest + "-" + "a");
    LongPath("/nix/store/", digest, b);
    assert "-b" + ";sha256:2;2;" == "-" + "b;sha256:2;2;";
    assert b + ";sha256:2;2;" == digest + ("-b" + ";sha256:2;2;");
    assert digest + "-" + "b;sha256:2;2;" == digest + ("-" + "b;sha256:2;2;");
  }

  lemma LongPath(root: Text, digest: Text, b: Text)
    ensures root + digest + "-a" + ";sha256:1;1;" + b == root + (digest + "-" + ("a;sha256:1;1;" + b))
  {
    assert "-a" + ";sha256:1;1;" == "-" + "a;sha256:1;1;";
    assert root + digest + "-a" + ";sha256:1;1;" + b == root + digest + ("-a" + ";sha256:1;1;") + b;
    assert root + digest + ("-" + "a;sha256:1;1;") + b == root + (digest + "-" + ("a;sha256:1;1;" + b));
  }

  lemma PlainName(digest: Text, name: Text)
    requires |digest| == 32 && forall i :: 0 <= i < 32 ==> LowerOrDigit(digest[i])
    requires name != "" && NameOk(name)
    ensures StoreNameText(digest + "-" + name)
  {
    StoreNameOf(digest, name);
    StoreNameIff(digest + "-" + name);
  }
}
