/** Narinfo texts as they are written: what parsing one gives, field by field. */
module NarInfoTexts {
  import opened Manifests
  import opened Numerals
  import opened NarInfos

  /** A line as somebody writes it: a field with its text and what that means, or a signature. */
  datatype Item = FieldLine(field: Field, text: Text, value: Value) | SigLine(name: Text, encoded: Text)

  function NameOf(f: Field): Text {
    match f
    case StorePath => "StorePath"
    case URL => "URL"
    case Compression => "Compression"
    case FileHash => "FileHash"
    case FileSize => "FileSize"
    case NarHash => "NarHash"
    case NarSize => "NarSize"
    case References => "References"
    case Deriver => "Deriver"
    case System => "System"
    case CA => "CA"
  }

  function LineOf(item: Item): Text {
    match item
    case FieldLine(field, text, _) => NameOf(field) + ": " + text
    case SigLine(name, encoded) => "Sig: " + name + ":" + encoded
  }

  function Print(items: seq<Item>): Text {
    if items == [] then "" else LineOf(items[0]) + "\n" + Print(items[1..])
  }

  // ---- Valid texts ----

  function Spaces(n: nat): Text {
    seq(n, _ => ' ')
  }

  /** References with spaces before, between and after them. */
  function SpacedText(references: seq<Text>, pads: seq<nat>): Text
    requires |pads| == |references| + 1
  {
    if references == [] then Spaces(pads[0])
    else
      var n := |references| - 1;
      SpacedText(references[..n], pads[..n + 1]) + references[n] + Spaces(pads[n + 1])
  }

  /** There is a space between any two references. */
  predicate Apart(references: seq<Text>, pads: seq<nat>)
    requires |pads| == |references| + 1
  {
    forall i :: 0 < i < |references| ==> pads[i] > 0
  }

  /** 32 characters, a dash and a name. */
  ghost predicate StoreNameText(s: Text) {
    exists digest, name ::
      && s == digest + "-" + name && |digest| == 32 && name != ""
      && (forall i :: 0 <= i < |digest| ==> '0' <= digest[i] <= '9' || 'a' <= digest[i] <= 'z')
      && (forall i :: 0 <= i < |name| ==> name[i] != '/' && !IsSpace(name[i]))
  }

  ghost predicate HashText(s: Text) {
    exists digest :: s == "sha256:" + digest && digest != "" && forall i :: 0 <= i < |digest| ==> '0' <= digest[i] <= '9' || 'a' <= digest[i] <= 'z'
  }

  ghost predicate OneLine(s: Text) {
    '\n' !in s && '\r' !in s && '\0' !in s
  }

  /** The text is a way of writing the field's value. */
  ghost predicate Shows(field: Field, text: Text, value: Value) {
    match field
    case StorePath => value == Str(text) && exists name :: text == "/nix/store/" + name && StoreNameText(name)
    case URL => value == Str(text) && UrlOk(text)
    case Compression => value == Str(text) && text != "" && forall i :: 0 <= i < |text| ==> !IsSpace(text[i])
    case FileHash => value == Str(text) && HashText(text)
    case NarHash => value == Str(text) && HashText(text)
    case FileSize => value.Num? && Digits(text) && ReadFrom(0, text) == value.number <= MAX_SAFE
    case NarSize => value.Num? && Digits(text) && ReadFrom(0, text) == value.number <= MAX_SAFE
    case References =>
      && value.Strs? && (forall i :: 0 <= i < |value.items| ==> StoreNameText(value.items[i]))
      && exists pads :: |pads| == |value.items| + 1 && Apart(value.items, pads) && text == SpacedText(value.items, pads)
    case _ => value == Str(text)
  }

  ghost predicate GoodItem(item: Item) {
    OneLine(LineOf(item)) &&
    match item
    case FieldLine(field, text, value) => Shows(field, text, value)
    case SigLine(name, encoded) => SignatureName(name) && ':' !in name && SignatureText(encoded)
  }

  ghost predicate Writes(items: seq<Item>, f: Field) {
    exists i :: 0 <= i < |items| && items[i].FieldLine? && items[i].field == f
  }

  /** Lines in any order: each good, no field twice, and the required ones there. */
  ghost predicate GoodItems(items: seq<Item>) {
    && (forall i :: 0 <= i < |items| ==> GoodItem(items[i]))
    && (forall i, j :: 0 <= i < j < |items| && items[i].FieldLine? && items[j].FieldLine? ==> items[i].field != items[j].field)
    && (forall i :: 0 <= i < |REQUIRED| ==> Writes(items, REQUIRED[i]))
  }

  // ---- What the lines say ----

  function TextsOf(items: seq<Item>): map<Field, Text> {
    if items == [] then map[]
    else
      var n := |items| - 1;
      if items[n].FieldLine? then TextsOf(items[..n])[items[n].field := items[n].text] else TextsOf(items[..n])
  }

  /** The signatures written, in order. */
  function SignaturesOf(items: seq<Item>): seq<Signature> {
    if items == [] then []
    else
      var n := |items| - 1;
      SignaturesOf(items[..n])
        + if items[n].SigLine? then [Signature(items[n].name, items[n].encoded, LineOf(items[n]))] else []
  }

  lemma {:induction false} TextsAre(items: seq<Item>)
    requires forall i, j :: 0 <= i < j < |items| && items[i].FieldLine? && items[j].FieldLine? ==> items[i].field != items[j].field
    ensures forall f :: f in TextsOf(items) <==> Writes(items, f)
    ensures forall i :: 0 <= i < |items| && items[i].FieldLine? ==>
              items[i].field in TextsOf(items) && TextsOf(items)[items[i].field] == items[i].text
  {
    if items != [] {
      var n := |items| - 1;
      TextsAre(items[..n]);
      forall f ensures f in TextsOf(items) <==> Writes(items, f) {
        if Writes(items[..n], f) {
          var i :| 0 <= i < n && items[..n][i].FieldLine? && items[..n][i].field == f;
          assert items[i].field == f;
        }
        if Writes(items, f) {
          var i :| 0 <= i < |items| && items[i].FieldLine? && items[i].field == f;
          assert i < n ==> items[..n][i].field == f;
        }
      }
      forall i | 0 <= i < n && items[i].FieldLine? ensures TextsOf(items)[items[i].field] == items[i].text {
        assert items[..n][i] == items[i] && Writes(items[..n], items[i].field);
      }
    }
  }

  // ---- One line ----

  lemma {:induction false} SeparatorAt(name: Text, value: Text)
    requires ':' !in name
    ensures Separator(name + ": " + value) == Some(|name|)
  {
    var s := name + ": " + value;
    if name == "" {
      assert s[0] == ':' && s[1] == ' ';
    } else {
      assert name[0] in name;
      assert s[1..] == name[1..] + ": " + value;
      SeparatorAt(name[1..], value);
    }
  }

  lemma {:induction false} UpToAt(a: Text, rest: Text, c: char)
    requires c !in a && (rest == "" || rest[0] == c)
    ensures UpTo(a + rest, c) == a
  {
    if a == "" {
      assert a + rest == rest;
    } else {
      assert a[0] in a && (a + rest)[1..] == a[1..] + rest;
      UpToAt(a[1..], rest, c);
    }
  }

  lemma FieldNames(f: Field)
    ensures FieldOf(NameOf(f)) == Some(f) && NameOf(f) != "Sig" && NameOf(f) != "" && ':' !in NameOf(f)
  {
  }

  lemma FieldNamed(name: Text, f: Field)
    requires FieldOf(name) == Some(f)
    ensures name == NameOf(f)
  {
  }

  lemma LineEntry(item: Item)
    requires GoodItem(item)
    ensures EntryOf(LineOf(item)) == match item
      case FieldLine(field, text, _) => Scalar(field, text)
      case SigLine(name, encoded) => Signed(Signature(name, encoded, LineOf(item)))
  {
    hide EntryOf, Shows, SignatureName, SignatureText;
    match item
    case FieldLine(field, text, _) => FieldEntry(field, text);
    case SigLine(name, encoded) => SigEntry(name, encoded);
  }

  lemma FieldEntry(field: Field, text: Text)
    ensures EntryOf(NameOf(field) + ": " + text) == Scalar(field, text)
  {
    hide FieldOf, Separator, NameOf;
    FieldNames(field);
    SeparatorAt(NameOf(field), text);
    var line := NameOf(field) + ": " + text;
    assert line[..|NameOf(field)|] == NameOf(field) && line[|NameOf(field)| + 2..] == text;
  }

  lemma SigEntry(name: Text, encoded: Text)
    requires SignatureName(name) && ':' !in name && SignatureText(encoded)
    ensures var line := "Sig: " + name + ":" + encoded; EntryOf(line) == Signed(Signature(name, encoded, line))
  {
    hide Separator, UpTo, SignatureName, SignatureText, FieldOf;
    var value := name + ":" + encoded;
    var line := "Sig" + ": " + value;
    SeparatorAt("Sig", value);
    assert line == "Sig: " + name + ":" + encoded;
    assert line[..3] == "Sig" && line[5..] == value;
    SigValue(line, name, encoded);
  }

  lemma SigValue(line: Text, name: Text, encoded: Text)
    requires SignatureName(name) && ':' !in name && SignatureText(encoded)
    ensures SignatureOf(line, name + ":" + encoded) == Some(Signature(name, encoded, line))
  {
    var value := name + ":" + encoded;
    NoColon(encoded);
    hide UpTo, SignatureName, SignatureText;
    assert value == name + (":" + encoded);
    UpToAt(name, ":" + encoded, ':');
    assert value[|name| + 1..] == encoded;
  }

  lemma NoColon(encoded: Text)
    requires SignatureText(encoded)
    ensures ':' !in encoded
  {
  }

  // ---- All lines ----

  function LinesOf(items: seq<Item>): (r: seq<Text>)
    ensures |r| == |items| && forall i :: 0 <= i < |items| ==> r[i] == LineOf(items[i])
  {
    seq(|items|, i requires 0 <= i < |items| => LineOf(items[i]))
  }

  lemma {:induction false} LinesParse(items: seq<Item>)
    requires forall i :: 0 <= i < |items| ==> GoodItem(items[i])
    requires forall i, j :: 0 <= i < j < |items| && items[i].FieldLine? && items[j].FieldLine? ==> items[i].field != items[j].field
    ensures ParseLines(LinesOf(items)) == Some(Parsed(TextsOf(items), SignaturesOf(items)))
  {
    hide EntryOf, GoodItem, LineOf, Writes, ParseLine;
    if items != [] {
      var n := |items| - 1;
      LinesParse(items[..n]);
      var lines := LinesOf(items);
      assert lines[..|lines| - 1] == LinesOf(items[..n]) && lines[|lines| - 1] == LineOf(items[n]);
      if items[n].FieldLine? { NotWritten(items); }
      LineParses(Parsed(TextsOf(items[..n]), SignaturesOf(items[..n])), items[n]);
      assert SignaturesOf(items[..n]) + [] == SignaturesOf(items[..n]);
    }
  }

  lemma NotWritten(items: seq<Item>)
    requires items != [] && items[|items| - 1].FieldLine?
    requires forall i, j :: 0 <= i < j < |items| && items[i].FieldLine? && items[j].FieldLine? ==> items[i].field != items[j].field
    ensures items[|items| - 1].field !in TextsOf(items[..|items| - 1])
  {
    var n := |items| - 1;
    TextsAre(items[..n]);
    forall i | 0 <= i < n && items[..n][i].FieldLine? ensures items[..n][i].field != items[n].field {
      assert items[..n][i] == items[i];
    }
  }

  lemma LineParses(p: Parsed, item: Item)
    requires GoodItem(item) && (item.FieldLine? ==> item.field !in p.scalars)
    ensures ParseLine(p, LineOf(item)) == match item
      case FieldLine(field, text, _) => Some(p.(scalars := p.scalars[field := text]))
      case SigLine(name, encoded) => Some(p.(signatures := p.signatures + [Signature(name, encoded, LineOf(item))]))
  {
    LineEntry(item);
    hide EntryOf, GoodItem, LineOf;
  }

  lemma {:induction false} PrintSnoc(items: seq<Item>, item: Item)
    ensures Print(items + [item]) == Print(items) + (LineOf(item) + "\n")
    decreases |items|
  {
    hide LineOf;
    var all := items + [item];
    if items == [] {
      assert all == [item] && all[1..] == [];
      assert Print([]) == "" && Print(all) == LineOf(item) + "\n" + "";
    } else {
      assert all[1..] == items[1..] + [item];
      PrintSnoc(items[1..], item);
      var head, rest, last := LineOf(items[0]) + "\n", Print(items[1..]), LineOf(item) + "\n";
      assert head + (rest + last) == head + rest + last;
    }
  }

  lemma {:induction false} PrintText(items: seq<Item>)
    requires items != [] && forall i :: 0 <= i < |items| ==> OneLine(LineOf(items[i]))
    ensures LineText(Print(items)) && Split(Body(Print(items)), '\n') == LinesOf(items)
  {
    hide LineOf, Split;
    var n := |items| - 1;
    assert items == items[..n] + [items[n]];
    PrintSnoc(items[..n], items[n]);
    var text, last := Print(items), LineOf(items[n]);
    if n == 0 {
      assert Print(items[..0]) == "";
      assert text == last + "\n" && Body(text) == last;
      SplitOne(last);
      assert LinesOf(items) == [last];
    } else {
      PrintText(items[..n]);
      var before := Print(items[..n]);
      MoreText(before, last);
      SplitPlain(Body(before), last);
      assert LinesOf(items) == LinesOf(items[..n]) + [last];
    }
  }

  lemma MoreText(before: Text, last: Text)
    requires LineText(before) && OneLine(last)
    ensures var text := before + (last + "\n"); LineText(text) && Body(text) == Body(before) + "\n" + last
  {
    var text := before + (last + "\n");
    assert before == Body(before) + "\n";
    assert text[..|text| - 1] == Body(before) + "\n" + last;
  }

  lemma {:induction false} SplitOne(line: Text)
    requires '\n' !in line
    ensures Split(line, '\n') == [line]
  {
    if line != "" {
      var n := |line| - 1;
      assert line[n] in line;
      SplitOne(line[..n]);
      assert line[..n] + [line[n]] == line;
    }
  }

  // ---- Values ----

  lemma {:induction false} DigitsRead(text: Text)
    requires forall i :: 0 <= i < |text| ==> '0' <= text[i] <= '9'
    ensures DigitsValue(text) == ReadFrom(0, text)
  {
    if text != "" {
      var n := |text| - 1;
      DigitsRead(text[..n]);
      ReadSnoc(0, text[..n], text[n]);
      assert text == text[..n] + [text[n]];
    }
  }

  lemma StoreNameIff(s: Text)
    ensures StoreName(s) <==> StoreNameText(s)
  {
    hide IsSpace;
    if StoreName(s) {
      var digest, name := s[..32], s[33..];
      assert s == digest + "-" + name;
    }
    if StoreNameText(s) {
      hide StoreName;
      var digest, name :| && s == digest + "-" + name && |digest| == 32 && name != ""
        && (forall i :: 0 <= i < |digest| ==> '0' <= digest[i] <= '9' || 'a' <= digest[i] <= 'z')
        && (forall i :: 0 <= i < |name| ==> name[i] != '/' && !IsSpace(name[i]));
      StoreNameOf(digest, name);
    }
  }

  lemma StoreNameOf(digest: Text, name: Text)
    requires |digest| == 32 && name != ""
    requires forall i :: 0 <= i < |digest| ==> '0' <= digest[i] <= '9' || 'a' <= digest[i] <= 'z'
    requires forall i :: 0 <= i < |name| ==> name[i] != '/' && !IsSpace(name[i])
    ensures StoreName(digest + "-" + name)
  {
    hide IsSpace;
    var s := digest + "-" + name;
    assert s[32] == '-' && |s| > 33;
    forall i | 0 <= i < 32 ensures LowerOrDigit(s[i]) {
      assert s[i] == digest[i];
    }
    forall i | 33 <= i < |s| ensures s[i] != '/' && !IsSpace(s[i]) {
      assert s[i] == name[i - 33];
    }
  }

  lemma HashIff(s: Text)
    ensures Sha256Text(s) <==> HashText(s)
  {
    if Sha256Text(s) {
      assert s == "sha256:" + s[7..];
    }
    if HashText(s) {
      var digest :| s == "sha256:" + digest && digest != "" && forall i :: 0 <= i < |digest| ==> '0' <= digest[i] <= '9' || 'a' <= digest[i] <= 'z';
      forall i | 7 <= i < |s| ensures LowerOrDigit(s[i]) {
        assert s[i] == digest[i - 7];
      }
    }
  }

  lemma SplitSnoc(s: Text, c: char)
    ensures Split(s + [c], c) == Split(s, c) + [""]
  {
    assert (s + [c])[..|s|] == s;
  }

  lemma {:induction false} SpacesAdd(s: Text, n: nat)
    ensures ReferencesOf(s + Spaces(n)) == ReferencesOf(s)
  {
    if n == 0 {
      assert s + Spaces(0) == s;
    } else {
      SpacesAdd(s, n - 1);
      var t := s + Spaces(n - 1);
      SplitSnoc(t, ' ');
      assert s + Spaces(n) == t + [' '];
      var pieces := Split(t, ' ') + [""];
      assert pieces[..|pieces| - 1] == Split(t, ' ');
    }
  }

  /** A word after a space, or at the beginning, is one more reference. */
  lemma WordAdds(s: Text, word: Text)
    requires word != "" && ' ' !in word && (s == "" || s[|s| - 1] == ' ')
    ensures ReferencesOf(s + word) == ReferencesOf(s) + [word]
  {
    WordSplit(s, word);
    var a, b := Split(s, ' '), Split(s + word, ' ');
    assert b[..|b| - 1] == a[..|a| - 1] && b[|b| - 1] == word && a[|a| - 1] == "";
  }

  lemma {:induction false} WordSplit(s: Text, word: Text)
    requires ' ' !in word && (s == "" || s[|s| - 1] == ' ')
    ensures var a := Split(s, ' '); Split(s + word, ' ') == a[..|a| - 1] + [word] && a[|a| - 1] == ""
    decreases |word|
  {
    if word == "" {
      assert s + word == s;
    } else {
      var n := |word| - 1;
      assert word[n] in word;
      WordSplit(s, word[..n]);
      assert (s + word)[..|s + word| - 1] == s + word[..n];
      assert word[..n] + [word[n]] == word;
    }
  }

  lemma {:induction false} SpacedReferences(references: seq<Text>, pads: seq<nat>)
    requires |pads| == |references| + 1 && Apart(references, pads)
    requires forall i :: 0 <= i < |references| ==> references[i] != "" && ' ' !in references[i]
    ensures ReferencesOf(SpacedText(references, pads)) == references
    decreases |references|
  {
    hide Split, NonEmpty;
    if references == [] {
      assert "" + Spaces(pads[0]) == SpacedText(references, pads);
      SpacesAdd("", pads[0]);
      NoReferences();
    } else {
      var n := |references| - 1;
      SpacedReferences(references[..n], pads[..n + 1]);
      var before := SpacedText(references[..n], pads[..n + 1]);
      EndsInSpace(references[..n], pads[..n + 1]);
      WordAdds(before, references[n]);
      SpacesAdd(before + references[n], pads[n + 1]);
      assert references == references[..n] + [references[n]];
    }
  }

  lemma NoReferences()
    ensures ReferencesOf("") == []
  {
    assert Split("", ' ') == [""];
    assert [""][..0] == [];
  }

  lemma EndsInSpace(references: seq<Text>, pads: seq<nat>)
    requires |pads| == |references| + 1 && (references == [] || pads[|references|] > 0)
    ensures var s := SpacedText(references, pads); s == "" || s[|s| - 1] == ' '
  {
  }

  lemma NoSpaceInName(s: Text)
    requires StoreNameText(s)
    ensures s != "" && ' ' !in s
  {
    StoreNameIff(s);
    assert IsSpace(' ');
    forall i | 0 <= i < |s| ensures s[i] != ' ' {
      assert i < 32 ==> LowerOrDigit(s[i]);
    }
  }

  /** What the code makes of a field's text. */
  ghost predicate FieldRead(field: Field, text: Text, value: Value) {
    && (field.FileSize? || field.NarSize? ==> UnsignedInteger(text).Some? && value == Num(UnsignedInteger(text).value))
    && (field.References? ==> value == Strs(ReferencesOf(text)) && forall i :: 0 <= i < |ReferencesOf(text)| ==> StoreName(ReferencesOf(text)[i]))
    && (!field.FileSize? && !field.NarSize? && !field.References? ==> value == Str(text))
    && (field.FileHash? || field.NarHash? ==> Sha256Text(text))
    && (field.StorePath? ==> "/nix/store/" <= text && StoreName(text[11..]))
    && (field.URL? ==> UrlOk(text))
    && (field.Compression? ==> text != [] && forall i :: 0 <= i < |text| ==> !IsSpace(text[i]))
  }

  /** A field's text is read as what it shows. */
  lemma ShownIsRead(field: Field, text: Text, value: Value)
    requires Shows(field, text, value)
    ensures FieldRead(field, text, value)
  {
    hide StoreName, StoreNameText, ReferencesOf, HashText, Sha256Text, IsSpace, UrlOk;
    if field.FileSize? || field.NarSize? {
      DigitsRead(text);
    } else if field.References? {
      var pads :| |pads| == |value.items| + 1 && Apart(value.items, pads) && text == SpacedText(value.items, pads);
      forall i | 0 <= i < |value.items| ensures value.items[i] != "" && ' ' !in value.items[i] && StoreName(value.items[i]) {
        NoSpaceInName(value.items[i]);
        StoreNameIff(value.items[i]);
      }
      SpacedReferences(value.items, pads);
    } else if field.FileHash? || field.NarHash? {
      HashIff(text);
    } else if field.StorePath? {
      var name :| text == "/nix/store/" + name && StoreNameText(name);
      assert text[11..] == name;
      StoreNameIff(name);
    }
  }

  // ---- The whole text ----

  ghost function ValueIn(items: seq<Item>, f: Field): Value {
    if Writes(items, f) then
      var i :| 0 <= i < |items| && items[i].FieldLine? && items[i].field == f;
      items[i].value
    else Undefined
  }

  /** What a signer signs: format, path, hash, size and references. */
  function FingerprintText(path: Text, hash: Text, size: nat, references: seq<Text>): Text {
    "1;" + path + ";" + hash + ";" + Decimal(size) + ";" + Listed(references)
  }

  function Listed(references: seq<Text>): Text {
    if references == [] then "" else if |references| == 1 then references[0] else references[0] + "," + Listed(references[1..])
  }

  lemma {:induction false} ListedJoins(references: seq<Text>)
    ensures Join(references, ",") == Listed(references)
    decreases |references|
  {
    if |references| > 1 {
      var n := |references| - 1;
      ListedJoins(references[..n]);
      ListedSnoc(references[..n], references[n]);
      assert references == references[..n] + [references[n]];
    }
  }

  lemma {:induction false} ListedSnoc(references: seq<Text>, last: Text)
    requires references != []
    ensures Listed(references + [last]) == Listed(references) + "," + last
    decreases |references|
  {
    var all := references + [last];
    assert all[1..] == references[1..] + [last];
    if |references| > 1 {
      ListedSnoc(references[1..], last);
    } else {
      assert all[1..] == [last];
    }
  }

  /** The record has exactly the values and signatures of these lines, under their names. */
  ghost predicate Records(n: NarInfo, items: seq<Item>) {
    && n.rawText == Print(items) && n.signatures == SignaturesOf(items)
    && (forall f :: ValueOf(n, f) == ValueIn(items, f))
    && ValueOf(n, StorePath).Str? && ValueOf(n, NarHash).Str? && ValueOf(n, NarSize).Num? && ValueOf(n, References).Strs?
    && n.fingerprint == FingerprintText(ValueOf(n, StorePath).text, ValueOf(n, NarHash).text, ValueOf(n, NarSize).number,
                                        ValueOf(n, References).items)
  }

  /** Valid lines in any order parse, to exactly the values and signatures written in them. */
  lemma PrintedParses(items: seq<Item>)
    requires GoodItems(items)
    ensures Parse(Print(items)).Some? && Records(Parse(Print(items)).value, items)
  {
    ItemsOk(items);
    ParsePrinted(items);
    RecordOf(items);
    hide GoodItems, Parse, Records, ScalarsOk;
  }

  lemma RecordOf(items: seq<Item>)
    requires GoodItems(items) && ScalarsOk(TextsOf(items))
    ensures Records(NarInfo(SemanticsOf(TextsOf(items)), SignaturesOf(items), Fingerprint(TextsOf(items)), Print(items)), items)
  {
    ItemsMean(items);
    hide GoodItems, ScalarsOk, SemanticsOf, Fingerprint, FingerprintText, TextsOf, SignaturesOf, ValueIn, Print, Records;
    RecordFrom(SemanticsOf(TextsOf(items)), Fingerprint(TextsOf(items)), items);
  }

  lemma RecordFrom(m: map<Field, Value>, fingerprint: Text, items: seq<Item>)
    requires forall f :: (if f in m then m[f] else Undefined) == ValueIn(items, f)
    requires StorePath in m && NarHash in m && NarSize in m && References in m
    requires m[StorePath].Str? && m[NarHash].Str? && m[NarSize].Num? && m[References].Strs?
    requires fingerprint == FingerprintText(m[StorePath].text, m[NarHash].text, m[NarSize].number, m[References].items)
    ensures Records(NarInfo(m, SignaturesOf(items), fingerprint, Print(items)), items)
  {
    hide FingerprintText, SignaturesOf, ValueIn, Print;
  }

  lemma ParsePrinted(items: seq<Item>)
    requires GoodItems(items) && ScalarsOk(TextsOf(items))
    ensures Parse(Print(items)) == Some(NarInfo(SemanticsOf(TextsOf(items)), SignaturesOf(items), Fingerprint(TextsOf(items)), Print(items)))
  {
    GoodParts(items);
    PrintText(items);
    LinesParse(items);
    hide GoodItem, OneLine, LineOf, Split, ParseLines, LineText, Body, ScalarsOk, SemanticsOf, Fingerprint, TextsOf, SignaturesOf, Print, LinesOf;
  }

  lemma GoodParts(items: seq<Item>)
    requires GoodItems(items)
    ensures items != [] && forall i :: 0 <= i < |items| ==> GoodItem(items[i]) && OneLine(LineOf(items[i]))
  {
    hide OneLine, LineOf, Shows, SignatureName, SignatureText;
    assert Writes(items, REQUIRED[0]);
  }

  lemma WrittenShown(items: seq<Item>, f: Field)
    requires GoodItems(items)
    ensures f in TextsOf(items) <==> Writes(items, f)
    ensures Writes(items, f) ==> Shows(f, TextsOf(items)[f], ValueIn(items, f))
  {
    hide Shows;
    TextsAre(items);
    if Writes(items, f) {
      var i :| 0 <= i < |items| && items[i].FieldLine? && items[i].field == f && ValueIn(items, f) == items[i].value;
      assert GoodItem(items[i]);
    }
  }

  lemma ItemsOk(items: seq<Item>)
    requires GoodItems(items)
    ensures ScalarsOk(TextsOf(items))
  {
    forall i | 0 <= i < |REQUIRED| ensures REQUIRED[i] in TextsOf(items) && FieldRead(REQUIRED[i], TextsOf(items)[REQUIRED[i]], ValueIn(items, REQUIRED[i])) {
      WrittenShown(items, REQUIRED[i]);
      ShownIsRead(REQUIRED[i], TextsOf(items)[REQUIRED[i]], ValueIn(items, REQUIRED[i]));
    }
    hide GoodItems, TextsOf, ValueIn;
    ReadIsOk(TextsOf(items), map f: Field :: ValueIn(items, f));
  }

  lemma ReadIsOk(scalars: map<Field, Text>, values: map<Field, Value>)
    requires forall f: Field :: f in values
    requires forall i :: 0 <= i < |REQUIRED| ==> REQUIRED[i] in scalars && FieldRead(REQUIRED[i], scalars[REQUIRED[i]], values[REQUIRED[i]])
    ensures ScalarsOk(scalars)
  {
    hide StoreName, ReferencesOf, Sha256Text, UnsignedInteger, IsSpace, UrlOk;
    assert REQUIRED[0] == StorePath && REQUIRED[1] == URL && REQUIRED[2] == Compression && REQUIRED[3] == FileHash;
    assert REQUIRED[4] == FileSize && REQUIRED[5] == NarHash && REQUIRED[6] == NarSize && REQUIRED[7] == References;
  }

  lemma ItemsMean(items: seq<Item>)
    requires GoodItems(items) && ScalarsOk(TextsOf(items))
    ensures var scalars := TextsOf(items); var m := SemanticsOf(scalars);
      && (forall f :: (if f in m then m[f] else Undefined) == ValueIn(items, f))
      && StorePath in m && NarHash in m && NarSize in m && References in m
      && m[StorePath].Str? && m[NarHash].Str? && m[NarSize].Num? && m[References].Strs?
      && Fingerprint(scalars) == FingerprintText(m[StorePath].text, m[NarHash].text, m[NarSize].number, m[References].items)
  {
    hide StoreName, ReferencesOf, Sha256Text, UnsignedInteger, TextsOf, HashText, StoreNameText, GoodItems, Shows, Join;
    var scalars := TextsOf(items);
    forall f ensures (if f in SemanticsOf(scalars) then SemanticsOf(scalars)[f] else Undefined) == ValueIn(items, f) {
      WrittenShown(items, f);
      FieldKnown(f);
      if Writes(items, f) {
        ShownIsRead(f, scalars[f], ValueIn(items, f));
      }
    }
    ListedJoins(ReferencesOf(scalars[References]));
  }

  lemma FieldKnown(f: Field)
    ensures f in SEMANTIC_FIELDS
  {
    match f
    case StorePath => assert SEMANTIC_FIELDS[0] == f;
    case URL => assert SEMANTIC_FIELDS[1] == f;
    case Compression => assert SEMANTIC_FIELDS[2] == f;
    case FileHash => assert SEMANTIC_FIELDS[3] == f;
    case FileSize => assert SEMANTIC_FIELDS[4] == f;
    case NarHash => assert SEMANTIC_FIELDS[5] == f;
    case NarSize => assert SEMANTIC_FIELDS[6] == f;
    case References => assert SEMANTIC_FIELDS[7] == f;
    case Deriver => assert SEMANTIC_FIELDS[8] == f;
    case System => assert SEMANTIC_FIELDS[9] == f;
    case CA => assert SEMANTIC_FIELDS[10] == f;
  }

  // ---- ... and nothing else parses ----

  lemma {:induction false} SeparatorCuts(s: Text)
    requires Separator(s).Some?
    ensures var i := Separator(s).value; s[i] == ':' && s[i + 1] == ' ' && s == s[..i] + ": " + s[i + 2..]
  {
    var i := Separator(s).value;
    if !(s[0] == ':' && s[1] == ' ') {
      SeparatorCuts(s[1..]);
    }
    assert s == s[..i] + [s[i], s[i + 1]] + s[i + 2..];
  }

  lemma {:induction false} UpToCuts(s: Text, c: char)
    ensures var a := UpTo(s, c); c !in a && |a| <= |s| && s[..|a|] == a && (|a| < |s| ==> s[|a|] == c)
  {
    if s != "" && s[0] != c { UpToCuts(s[1..], c); }
  }

  lemma EntryLine(line: Text)
    ensures match EntryOf(line)
      case Malformed => true
      case Scalar(field, text) => line == NameOf(field) + ": " + text
      case Signed(s) => line == "Sig: " + s.name + ":" + s.encoded && s.rawLine == line
                        && SignatureName(s.name) && ':' !in s.name && SignatureText(s.encoded)
  {
    hide Separator, UpTo, SignatureName, SignatureText, FieldOf, NameOf;
    if Separator(line).Some? && Separator(line).value > 0 {
      var i := Separator(line).value;
      SeparatorCuts(line);
      var name, value := line[..i], line[i + 2..];
      if name == "Sig" {
        UpToCuts(value, ':');
        var n := UpTo(value, ':');
        if |n| < |value| {
          assert value == n + ":" + value[|n| + 1..];
          assert line == "Sig: " + n + ":" + value[|n| + 1..];
        }
      } else if FieldOf(name).Some? {
        FieldNamed(name, FieldOf(name).value);
      }
    }
  }

  /** What a field's text stands for. */
  function ReadValue(field: Field, text: Text): Value {
    if field.FileSize? || field.NarSize? then Num(if UnsignedInteger(text).Some? then UnsignedInteger(text).value else 0)
    else if field.References? then Strs(ReferencesOf(text))
    else Str(text)
  }

  function ItemOf(line: Text): Item {
    match EntryOf(line)
    case Signed(s) => SigLine(s.name, s.encoded)
    case Scalar(field, text) => FieldLine(field, text, ReadValue(field, text))
    case Malformed => SigLine("", "")
  }

  function ItemsOf(lines: seq<Text>): (r: seq<Item>)
    ensures |r| == |lines| && forall i :: 0 <= i < |lines| ==> r[i] == ItemOf(lines[i])
  {
    seq(|lines|, i requires 0 <= i < |lines| => ItemOf(lines[i]))
  }

  ghost predicate Once(items: seq<Item>) {
    forall i, j :: 0 <= i < j < |items| && items[i].FieldLine? && items[j].FieldLine? ==> items[i].field != items[j].field
  }

  lemma LineReads(p: Parsed, line: Text)
    requires ParseLine(p, line).Some?
    ensures var q, item := ParseLine(p, line).value, ItemOf(line);
      && EntryOf(line) != Malformed
      && (item.FieldLine? ==> item.field !in p.scalars && q.scalars == p.scalars[item.field := item.text])
      && (item.SigLine? ==> q.scalars == p.scalars)
  {
    hide EntryOf, ReadValue;
  }

  lemma {:induction false} LinesRead(lines: seq<Text>)
    requires ParseLines(lines).Some?
    ensures var items := ItemsOf(lines);
      && LinesOf(items) == lines && Once(items) && TextsOf(items) == ParseLines(lines).value.scalars
      && (forall i :: 0 <= i < |lines| ==> EntryOf(lines[i]) != Malformed)
    decreases |lines|
  {
    hide EntryOf, LineOf, ParseLine, ItemOf, Writes;
    if lines != [] {
      var n := |lines| - 1;
      LinesRead(lines[..n]);
      LineReads(ParseLines(lines[..n]).value, lines[n]);
      ItemLine(lines[n]);
      assert lines == lines[..n] + [lines[n]];
      var items, before := ItemsOf(lines), ItemsOf(lines[..n]);
      assert items == before + [ItemOf(lines[n])] && items[..n] == before;
      if items[n].FieldLine? { OnceMore(before, items[n]); }
    }
  }

  lemma OnceMore(before: seq<Item>, item: Item)
    requires Once(before) && item.FieldLine? && item.field !in TextsOf(before)
    ensures Once(before + [item])
  {
    TextsAre(before);
    forall i | 0 <= i < |before| && before[i].FieldLine? ensures before[i].field != item.field {
      assert Writes(before, before[i].field);
    }
  }

  lemma ItemLine(line: Text)
    requires EntryOf(line) != Malformed
    ensures LineOf(ItemOf(line)) == line
  {
    EntryLine(line);
    hide EntryOf, NameOf, ReadValue;
  }

  lemma {:induction false} PrintLines(text: Text, items: seq<Item>)
    requires Split(text, '\n') == LinesOf(items)
    ensures Print(items) == text + "\n"
    decreases |text|, |items|
  {
    hide LineOf;
    var n := |items| - 1;
    assert items == items[..n] + [items[n]] && LinesOf(items) == LinesOf(items[..n]) + [LineOf(items[n])];
    PrintSnoc(items[..n], items[n]);
    var line := LineOf(items[n]);
    if n == 0 {
      SplitHead(text);
      assert Print(items[..0]) == "" && "" + (line + "\n") == line + "\n";
    } else {
      var k := SplitLast(text);
      PrintLines(text[..k], items[..n]);
      assert text == text[..k] + "\n" + line;
      assert text[..k] + "\n" + (line + "\n") == text + "\n";
    }
  }

  lemma {:induction false} SplitHead(text: Text)
    requires |Split(text, '\n')| == 1
    ensures Split(text, '\n') == [text]
  {
    if text != "" {
      var n := |text| - 1;
      SplitHead(text[..n]);
      assert text == text[..n] + [text[n]];
    }
  }

  /** The last piece begins after the last break. */
  lemma {:induction false} SplitLast(text: Text) returns (k: nat)
    requires |Split(text, '\n')| > 1
    ensures var r := Split(text, '\n'); k < |text| && text == text[..k] + "\n" + r[|r| - 1] && Split(text[..k], '\n') == r[..|r| - 1]
  {
    var n := |text| - 1;
    var r := Split(text[..n], '\n');
    assert text == text[..n] + [text[n]];
    if text[n] == '\n' {
      k := n;
      assert (r + [""])[..|r|] == r;
    } else {
      k := SplitLast(text[..n]);
      assert text[..n][..k] == text[..k];
      assert text == text[..k] + "\n" + (r[|r| - 1] + [text[n]]);
    }
  }

  /** Any text is its references with spaces around them. */
  lemma {:induction false} SpacedExists(text: Text) returns (pads: seq<nat>)
    ensures var rs := ReferencesOf(text); var pieces := Split(text, ' ');
      && |pads| == |rs| + 1 && Apart(rs, pads) && text == SpacedText(rs, pads)
      && (pieces[|pieces| - 1] != "" ==> rs != [] && rs[|rs| - 1] == pieces[|pieces| - 1] && pads[|rs|] == 0)
      && (pieces[|pieces| - 1] == "" ==> rs == [] || pads[|rs|] > 0)
  {
    if text == "" {
      NoReferences();
      pads := [0];
      assert Spaces(0) == "" && SpacedText([], pads) == Spaces(pads[0]);
    } else {
      var n := |text| - 1;
      var t, c := text[..n], text[n];
      assert text == t + [c];
      var before := SpacedExists(t);
      hide ReferencesOf, Split, SpacedText;
      var rs := ReferencesOf(t);
      var k := |rs|;
      if c == ' ' {
        pads := before[k := before[k] + 1];
        MoreSpace(rs, before);
        SpaceMore(t);
      } else {
        pads := LongerWord(t, c, before);
      }
    }
  }

  lemma SpaceMore(t: Text)
    ensures ReferencesOf(t + [' ']) == ReferencesOf(t) && Split(t + [' '], ' ') == Split(t, ' ') + [""]
  {
    SplitSnoc(t, ' ');
    var more := Split(t, ' ') + [""];
    assert more[..|more| - 1] == Split(t, ' ');
    assert ReferencesOf(t) + [] == ReferencesOf(t);
  }

  lemma MoreSpace(rs: seq<Text>, pads: seq<nat>)
    requires |pads| == |rs| + 1 && Apart(rs, pads)
    ensures var more := pads[|rs| := pads[|rs|] + 1]; Apart(rs, more) && SpacedText(rs, more) == SpacedText(rs, pads) + [' ']
  {
    var k := |rs|;
    var more := pads[k := pads[k] + 1];
    assert Spaces(pads[k] + 1) == Spaces(pads[k]) + [' '];
    if rs != [] {
      assert more[..k] == pads[..k];
    }
  }

  /** One more character that is no space begins a reference or lengthens the last one. */
  lemma LongerWord(t: Text, c: char, before: seq<nat>) returns (pads: seq<nat>)
    requires c != ' '
    requires var rs := ReferencesOf(t); var pieces := Split(t, ' ');
      && |before| == |rs| + 1 && Apart(rs, before) && t == SpacedText(rs, before)
      && (pieces[|pieces| - 1] != "" ==> rs != [] && rs[|rs| - 1] == pieces[|pieces| - 1] && before[|rs|] == 0)
      && (pieces[|pieces| - 1] == "" ==> rs == [] || before[|rs|] > 0)
    ensures var rs := ReferencesOf(t + [c]); var pieces := Split(t + [c], ' ');
      && |pads| == |rs| + 1 && Apart(rs, pads) && t + [c] == SpacedText(rs, pads)
      && pieces[|pieces| - 1] != "" && rs != [] && rs[|rs| - 1] == pieces[|pieces| - 1] && pads[|rs|] == 0
  {
    var rs, pieces := ReferencesOf(t), Split(t, ' ');
    var last := pieces[|pieces| - 1];
    LongerPieces(t, c);
    hide ReferencesOf, Split, NonEmpty, SpacedText;
    if last == "" {
      pads := before + [0];
      NewWord(rs, before, [c]);
    } else {
      pads := before;
      MoreOfWord(rs, before, c);
    }
  }

  lemma LongerPieces(t: Text, c: char)
    requires c != ' '
    ensures var pieces, now := Split(t, ' '), Split(t + [c], ' '); var last, front := pieces[|pieces| - 1], ReferencesOf(t);
      && now[|now| - 1] == last + [c]
      && (last == "" ==> ReferencesOf(t + [c]) == front + [[c]])
      && (last != "" ==> front != [] && front[|front| - 1] == last && ReferencesOf(t + [c]) == front[..|front| - 1] + [last + [c]])
  {
    var pieces := Split(t, ' ');
    var n := |pieces| - 1;
    var front := NonEmpty(pieces[..n]);
    assert (t + [c])[..|t|] == t;
    var now := pieces[..n] + [pieces[n] + [c]];
    assert Split(t + [c], ' ') == now && now[..n] == pieces[..n] && now[n] != "";
    assert ReferencesOf(t + [c]) == front + [pieces[n] + [c]];
    if pieces[n] == "" {
      assert ReferencesOf(t) == front + [] && front + [] == front && "" + [c] == [c];
    } else {
      assert ReferencesOf(t) == front + [pieces[n]] && (front + [pieces[n]])[..|front|] == front;
    }
  }

  lemma NewWord(rs: seq<Text>, pads: seq<nat>, word: Text)
    requires |pads| == |rs| + 1 && Apart(rs, pads) && (rs == [] || pads[|rs|] > 0)
    ensures Apart(rs + [word], pads + [0]) && SpacedText(rs + [word], pads + [0]) == SpacedText(rs, pads) + word
  {
    var k := |rs|;
    assert (rs + [word])[..k] == rs && (pads + [0])[..k + 1] == pads && Spaces(0) == "";
    assert SpacedText(rs, pads) + word + "" == SpacedText(rs, pads) + word;
  }

  lemma MoreOfWord(rs: seq<Text>, pads: seq<nat>, c: char)
    requires |pads| == |rs| + 1 && Apart(rs, pads) && rs != [] && pads[|rs|] == 0
    ensures var n := |rs| - 1; var longer := rs[..n] + [rs[n] + [c]];
      Apart(longer, pads) && SpacedText(longer, pads) == SpacedText(rs, pads) + [c]
  {
    var n := |rs| - 1;
    var longer := rs[..n] + [rs[n] + [c]];
    assert longer[..n] == rs[..n] && Spaces(0) == "";
    var before := SpacedText(rs[..n], pads[..n + 1]);
    assert SpacedText(longer, pads) == before + (rs[n] + [c]) + "" && SpacedText(rs, pads) == before + rs[n] + "";
  }

  lemma ReadIsShown(field: Field, text: Text)
    requires FieldRead(field, text, ReadValue(field, text))
    ensures Shows(field, text, ReadValue(field, text))
  {
    hide StoreName, StoreNameText, HashText, Sha256Text, IsSpace, UrlOk, ReferencesOf, SpacedText, Apart;
    if field.FileSize? || field.NarSize? {
      DigitsRead(text);
    } else if field.References? {
      var pads := SpacedExists(text);
      forall i | 0 <= i < |ReferencesOf(text)| ensures StoreNameText(ReferencesOf(text)[i]) {
        StoreNameIff(ReferencesOf(text)[i]);
      }
    } else if field.FileHash? || field.NarHash? {
      HashIff(text);
    } else if field.StorePath? {
      var name := text[11..];
      StoreNameIff(name);
      assert text == "/nix/store/" + name && StoreNameText(name);
    }
  }

  lemma OkIsRead(scalars: map<Field, Text>, f: Field)
    requires ScalarsOk(scalars) && f in scalars
    ensures FieldRead(f, scalars[f], ReadValue(f, scalars[f]))
  {
    hide StoreName, ReferencesOf, Sha256Text, UnsignedInteger, IsSpace, UrlOk;
  }

  /** A text that parses is such a text: some valid lines, each ended. */
  lemma ParsedIsPrinted(text: Text) returns (items: seq<Item>)
    requires Parse(text).Some?
    ensures GoodItems(items) && Print(items) == text
  {
    var lines := Split(Body(text), '\n');
    items := ItemsOf(lines);
    ParsedLines(text);
    LinesRead(lines);
    PrintLines(Body(text), items);
    hide Split, ParseLines, Parse, LineText, Body, GoodItem, ItemsOf, LinesOf, Once, TextsOf, ScalarsOk, Writes;
    LinesAreGood(items, lines, ParseLines(lines).value.scalars);
    RequiredThere(items);
    OnceIs(items);
  }

  lemma OnceIs(items: seq<Item>)
    requires Once(items)
    ensures forall i, j :: 0 <= i < j < |items| && items[i].FieldLine? && items[j].FieldLine? ==> items[i].field != items[j].field
  {
  }

  lemma ParsedLines(text: Text)
    requires Parse(text).Some?
    ensures text != "" && text == Body(text) + "\n"
    ensures var lines := Split(Body(text), '\n');
      && ParseLines(lines).Some? && ScalarsOk(ParseLines(lines).value.scalars)
      && forall i :: 0 <= i < |lines| ==> PlainLine(lines[i])
  {
    var lines := Split(Body(text), '\n');
    forall i | 0 <= i < |lines| ensures PlainLine(lines[i]) {
      SplitLines(Body(text), i);
    }
    hide Split, ParseLines, ScalarsOk, PlainLine;
    assert text == Body(text) + "\n";
  }

  lemma LinesAreGood(items: seq<Item>, lines: seq<Text>, scalars: map<Field, Text>)
    requires items == ItemsOf(lines) && LinesOf(items) == lines && Once(items) && TextsOf(items) == scalars && ScalarsOk(scalars)
    requires forall i :: 0 <= i < |lines| ==> EntryOf(lines[i]) != Malformed && PlainLine(lines[i])
    ensures forall i :: 0 <= i < |items| ==> GoodItem(items[i])
  {
    hide GoodItem, ScalarsOk, TextsOf, Once, EntryOf, PlainLine;
    forall i | 0 <= i < |lines| ensures GoodItem(items[i]) {
      LineRead(items, lines, scalars, i);
    }
  }

  lemma RequiredThere(items: seq<Item>)
    requires Once(items) && ScalarsOk(TextsOf(items))
    ensures forall i :: 0 <= i < |REQUIRED| ==> Writes(items, REQUIRED[i])
  {
    TextsAre(items);
    hide StoreName, ReferencesOf, Sha256Text, UnsignedInteger, IsSpace, UrlOk, Writes;
  }

  lemma LineRead(items: seq<Item>, lines: seq<Text>, scalars: map<Field, Text>, i: nat)
    requires i < |lines| && items == ItemsOf(lines) && LinesOf(items) == lines && Once(items) && TextsOf(items) == scalars && ScalarsOk(scalars)
    requires EntryOf(lines[i]) != Malformed && PlainLine(lines[i])
    ensures GoodItem(items[i])
  {
    hide ScalarsOk, Shows, ReadValue, LineOf, SignatureName, SignatureText;
    EntryLine(lines[i]);
    assert LineOf(items[i]) == lines[i];
    if items[i].FieldLine? {
      TextsAre(items);
      OkIsRead(scalars, items[i].field);
      ReadIsShown(items[i].field, items[i].text);
    }
    hide EntryOf;
  }

  /** Exactly the printed texts parse. */
  lemma ParsesIff(text: Text)
    ensures Parse(text).Some? <==> exists items :: GoodItems(items) && Print(items) == text
  {
    hide Parse, GoodItems, Print, Records;
    if Parse(text).Some? {
      var items := ParsedIsPrinted(text);
    }
    forall items | GoodItems(items) && Print(items) == text ensures Parse(text).Some? {
      PrintedParses(items);
    }
  }
}
