/** Narinfo texts: parsing, comparing, and appending signatures. */
module NarInfos {
  import opened Manifests
  import opened Numerals

  type Text = string

  // ---- Text ----

  function Split(s: Text, c: char): (r: seq<Text>)
    ensures r != []
  {
    if s == [] then [[]]
    else
      var r := Split(s[..|s| - 1], c);
      if s[|s| - 1] == c then r + [[]] else r[..|r| - 1] + [r[|r| - 1] + [s[|s| - 1]]]
  }

  function Join(items: seq<Text>, separator: Text): Text {
    if items == [] then "" else if |items| == 1 then items[0] else Join(items[..|items| - 1], separator) + separator + items[|items| - 1]
  }

  function UpTo(s: Text, c: char): (r: Text)
    ensures |r| <= |s|
  {
    if s == [] || s[0] == c then [] else [s[0]] + UpTo(s[1..], c)
  }

  /** Where a colon is followed by a space. */
  function Separator(s: Text): (r: Option<nat>)
    ensures r.Some? ==> r.value + 1 < |s|
  {
    if |s| < 2 then None
    else if s[0] == ':' && s[1] == ' ' then Some(0)
    else
      var r := Separator(s[1..]);
      if r.None? then None else Some(r.value + 1)
  }

  /** White space as regular expressions see it. */
  predicate IsSpace(c: char) {
    || 9 <= c as int <= 13
    || c as int in {0x20, 0xa0, 0x1680, 0x2028, 0x2029, 0x202f, 0x205f, 0x3000, 0xfeff}
    || 0x2000 <= c as int <= 0x200a
  }

  predicate LowerOrDigit(c: char) {
    '0' <= c <= '9' || 'a' <= c <= 'z'
  }

  /** 32 base-32 characters, a dash, and a name without slash or space. */
  predicate StoreName(s: Text) {
    && |s| > 33 && s[32] == '-'
    && (forall i :: 0 <= i < 32 ==> LowerOrDigit(s[i]))
    && (forall i :: 33 <= i < |s| ==> s[i] != '/' && !IsSpace(s[i]))
  }

  predicate Sha256Text(s: Text) {
    "sha256:" <= s && |s| > 7 && forall i :: 7 <= i < |s| ==> LowerOrDigit(s[i])
  }

  predicate AllDigits(s: Text) {
    s != [] && forall i :: 0 <= i < |s| ==> '0' <= s[i] <= '9'
  }

  function DigitsValue(s: Text): nat
    requires forall i :: 0 <= i < |s| ==> '0' <= s[i] <= '9'
  {
    if s == [] then 0 else DigitsValue(s[..|s| - 1]) * 10 + (s[|s| - 1] as int - '0' as int)
  }

  function UnsignedInteger(s: Text): Option<nat> {
    if !AllDigits(s) || DigitsValue(s) > MAX_SAFE then None else Some(DigitsValue(s))
  }

  predicate Base64Char(c: char) {
    'A' <= c <= 'Z' || LowerOrDigit(c) || c == '+' || c == '/'
  }

  /** Canonical standard base64 of 64 bytes. */
  predicate SignatureText(s: Text) {
    && |s| == 88 && s[86] == '=' && s[87] == '='
    && (forall i :: 0 <= i < 86 ==> Base64Char(s[i])) && s[85] in "AQgw"
  }

  // ---- Records ----

  datatype Field = StorePath | URL | Compression | FileHash | FileSize | NarHash | NarSize | References | Deriver | System | CA

  const REQUIRED: seq<Field> := [StorePath, URL, Compression, FileHash, FileSize, NarHash, NarSize, References]
  const SEMANTIC_FIELDS: seq<Field> := REQUIRED + [Deriver, System, CA]

  function FieldOf(name: Text): Option<Field> {
    if name == "StorePath" then Some(StorePath)
    else if name == "URL" then Some(URL)
    else if name == "Compression" then Some(Compression)
    else if name == "FileHash" then Some(FileHash)
    else if name == "FileSize" then Some(FileSize)
    else if name == "NarHash" then Some(NarHash)
    else if name == "NarSize" then Some(NarSize)
    else if name == "References" then Some(References)
    else if name == "Deriver" then Some(Deriver)
    else if name == "System" then Some(System)
    else if name == "CA" then Some(CA)
    else None
  }

  datatype Signature = Signature(name: Text, encoded: Text, rawLine: Text)

  datatype Value = Str(text: Text) | Num(number: nat) | Strs(items: seq<Text>) | Undefined

  datatype NarInfo = NarInfo(semantics: map<Field, Value>, signatures: seq<Signature>, fingerprint: Text, rawText: Text)

  // ---- Parsing ----

  /** What the lines so far have filled in. */
  datatype Parsed = Parsed(scalars: map<Field, Text>, signatures: seq<Signature>)

  predicate SignatureName(s: Text) {
    s != [] && forall i :: 0 <= i < |s| ==> !IsSpace(s[i]) && s[i] as int >= 32 && s[i] as int != 127
  }

  /** A signature line: a name, the only colon, and the signature. */
  function SignatureOf(line: Text, value: Text): Option<Signature> {
    var name := UpTo(value, ':');
    if |name| == |value| || ':' in value[|name| + 1..] || !SignatureName(name) || !SignatureText(value[|name| + 1..]) then None
    else Some(Signature(name, value[|name| + 1..], line))
  }

  datatype Entry = Signed(signature: Signature) | Scalar(field: Field, value: Text) | Malformed

  function EntryOf(line: Text): Entry {
    var separator := Separator(line);
    if separator.None? || separator.value == 0 then Malformed
    else
      var name, value := line[..separator.value], line[separator.value + 2..];
      if name == "Sig" then
        var s := SignatureOf(line, value);
        if s.None? then Malformed else Signed(s.value)
      else
        var field := FieldOf(name);
        if field.None? then Malformed else Scalar(field.value, value)
  }

  function ParseLine(p: Parsed, line: Text): Option<Parsed> {
    match EntryOf(line)
    case Malformed => None
    case Signed(s) => Some(p.(signatures := p.signatures + [s]))
    case Scalar(field, value) => if field in p.scalars then None else Some(p.(scalars := p.scalars[field := value]))
  }

  function ParseLines(lines: seq<Text>): Option<Parsed> {
    if lines == [] then Some(Parsed(map[], []))
    else
      var p := ParseLines(lines[..|lines| - 1]);
      if p.None? then None else ParseLine(p.value, lines[|lines| - 1])
  }

  predicate UrlOk(url: Text) {
    url != [] && url[0] != '/' && '\\' !in url && ".." !in Split(url, '/')
  }

  function ReferencesOf(value: Text): seq<Text> {
    NonEmpty(Split(value, ' '))
  }

  function NonEmpty(items: seq<Text>): seq<Text> {
    if items == [] then []
    else NonEmpty(items[..|items| - 1]) + if items[|items| - 1] == [] then [] else [items[|items| - 1]]
  }

  predicate ScalarsOk(scalars: map<Field, Text>) {
    && (forall i :: 0 <= i < |REQUIRED| ==> REQUIRED[i] in scalars)
    && StorePath in scalars && "/nix/store/" <= scalars[StorePath] && StoreName(scalars[StorePath][11..])
    && URL in scalars && UrlOk(scalars[URL])
    && Compression in scalars && scalars[Compression] != []
    && (forall i :: 0 <= i < |scalars[Compression]| ==> !IsSpace(scalars[Compression][i]))
    && FileHash in scalars && Sha256Text(scalars[FileHash])
    && NarHash in scalars && Sha256Text(scalars[NarHash])
    && FileSize in scalars && UnsignedInteger(scalars[FileSize]).Some?
    && NarSize in scalars && UnsignedInteger(scalars[NarSize]).Some?
    && References in scalars && forall i :: 0 <= i < |ReferencesOf(scalars[References])| ==> StoreName(ReferencesOf(scalars[References])[i])
  }

  function SemanticsOf(scalars: map<Field, Text>): map<Field, Value>
    requires ScalarsOk(scalars)
  {
    map f: Field | f in SEMANTIC_FIELDS ::
      if f !in scalars then Undefined
      else if f.FileSize? || f.NarSize? then Num(UnsignedInteger(scalars[f]).value)
      else if f.References? then Strs(ReferencesOf(scalars[f]))
      else Str(scalars[f])
  }

  function Fingerprint(scalars: map<Field, Text>): Text
    requires ScalarsOk(scalars)
  {
    "1;" + scalars[StorePath] + ";" + scalars[NarHash] + ";" + Decimal(UnsignedInteger(scalars[NarSize]).value) + ";"
    + Join(ReferencesOf(scalars[References]), ",")
  }

  predicate LineText(text: Text) {
    text != [] && text[|text| - 1] == '\n' && '\r' !in text && '\0' !in text
  }

  function Body(text: Text): Text
    requires text != []
  {
    text[..|text| - 1]
  }

  function Parse(text: Text): Option<NarInfo> {
    if !LineText(text) then None
    else
      var p := ParseLines(Split(Body(text), '\n'));
      if p.None? || !ScalarsOk(p.value.scalars) then None
      else Some(NarInfo(SemanticsOf(p.value.scalars), p.value.signatures, Fingerprint(p.value.scalars), text))
  }

  /** `parseNarInfo`, line by line. */
  method ParseNarInfo(text: Text) returns (r: Option<NarInfo>)
    ensures r == Parse(text)
  {
    if !LineText(text) {
      return None;
    }
    var lines := Split(Body(text), '\n');
    var p := Parsed(map[], []);
    var i := 0;
    while i < |lines|
      invariant 0 <= i <= |lines|
      invariant ParseLines(lines[..i]) == Some(p)
    {
      hide ParseLine, Split;
      var next := ParseLine(p, lines[i]);
      assert lines[..i + 1][..i] == lines[..i];
      if next.None? {
        StuckLines(lines, i + 1);
        return None;
      }
      p := next.value;
      i := i + 1;
    }
    assert lines[..i] == lines;
    if !ScalarsOk(p.scalars) {
      return None;
    }
    r := Some(NarInfo(SemanticsOf(p.scalars), p.signatures, Fingerprint(p.scalars), text));
  }

  lemma {:induction false} StuckLines(lines: seq<Text>, i: nat)
    requires i <= |lines| && ParseLines(lines[..i]).None?
    ensures ParseLines(lines).None?
    decreases |lines|
  {
    if i == |lines| {
      assert lines[..i] == lines;
    } else {
      assert lines[..|lines| - 1][..i] == lines[..i];
      StuckLines(lines[..|lines| - 1], i);
    }
  }

  // ---- Comparing ----

  function ValueOf(n: NarInfo, f: Field): Value {
    if f in n.semantics then n.semantics[f] else Undefined
  }

  /** Those of `fields` on which the records differ. */
  function DifferingAmong(a: NarInfo, b: NarInfo, fields: seq<Field>): (r: seq<Field>)
    ensures forall f :: f in r <==> f in fields && ValueOf(a, f) != ValueOf(b, f)
  {
    if fields == [] then []
    else
      var f := fields[|fields| - 1];
      assert fields == fields[..|fields| - 1] + [f];
      DifferingAmong(a, b, fields[..|fields| - 1]) + if ValueOf(a, f) != ValueOf(b, f) then [f] else []
  }

  /** `differingNarInfoFields` */
  function Differing(a: NarInfo, b: NarInfo): (r: seq<Field>)
    ensures forall f :: f in r <==> f in SEMANTIC_FIELDS && ValueOf(a, f) != ValueOf(b, f)
  {
    DifferingAmong(a, b, SEMANTIC_FIELDS)
  }

  ghost predicate FullSemantics(n: NarInfo) {
    forall f: Field :: f in n.semantics <==> f in SEMANTIC_FIELDS
  }

  lemma ParsedIsFull(text: Text)
    requires Parse(text).Some?
    ensures FullSemantics(Parse(text).value) && Parse(text).value.rawText == text
  {
    hide ScalarsOk, ParseLines;
  }

  /** No field differs exactly when the records mean the same. */
  lemma DifferingIff(a: NarInfo, b: NarInfo)
    requires FullSemantics(a) && FullSemantics(b)
    ensures Differing(a, b) == [] <==> a.semantics == b.semantics
  {
    var r := Differing(a, b);
    if r == [] {
      forall f | f in a.semantics ensures f in b.semantics && a.semantics[f] == b.semantics[f] {
        assert f !in r;
      }
    } else {
      assert r[0] in r;
    }
  }

  // ---- Appending signatures ----

  function Appended(lines: seq<Text>): Text {
    if lines == [] then "" else Appended(lines[..|lines| - 1]) + "\n" + lines[|lines| - 1]
  }

  /** `appendNarInfoSignatures` */
  function AppendSignatures(winner: NarInfo, lines: seq<Text>): Text
    requires winner.rawText != []
  {
    if lines == [] then winner.rawText else Body(winner.rawText) + Appended(lines) + "\n"
  }

  function RawLines(signatures: seq<Signature>): seq<Text> {
    seq(|signatures|, i requires 0 <= i < |signatures| => signatures[i].rawLine)
  }

  /** A signature whose line is a line of some narinfo, and parses to it. */
  ghost predicate GoodSignature(s: Signature) {
    && '\n' !in s.rawLine && '\r' !in s.rawLine && '\0' !in s.rawLine
    && EntryOf(s.rawLine) == Signed(s)
  }

  lemma {:induction false} SignaturesParsed(lines: seq<Text>, p: Parsed, signatures: seq<Signature>)
    requires ParseLines(lines) == Some(p) && forall i :: 0 <= i < |signatures| ==> GoodSignature(signatures[i])
    ensures ParseLines(lines + RawLines(signatures)) == Some(p.(signatures := p.signatures + signatures))
    decreases |signatures|
  {
    hide EntryOf;
    if signatures == [] {
      assert lines + RawLines([]) == lines && p.signatures + [] == p.signatures;
    } else {
      var n := |signatures| - 1;
      SignaturesParsed(lines, p, signatures[..n]);
      var all := lines + RawLines(signatures);
      assert all[..|all| - 1] == lines + RawLines(signatures[..n]);
      assert all[|all| - 1] == signatures[n].rawLine;
      assert GoodSignature(signatures[n]);
      assert p.signatures + signatures[..n] + [signatures[n]] == p.signatures + signatures;
    }
  }

  lemma {:induction false} SplitPlain(a: Text, line: Text)
    requires '\n' !in line
    ensures Split(a + "\n" + line, '\n') == Split(a, '\n') + [line]
    decreases |line|
  {
    var s := a + "\n" + line;
    if line == [] {
      assert s == a + ['\n'] && s[..|s| - 1] == a;
    } else {
      var n := |line| - 1;
      SplitPlain(a, line[..n]);
      assert s[..|s| - 1] == a + "\n" + line[..n];
      assert line[..n] + [line[n]] == line;
      assert line[n] in line;
    }
  }

  lemma {:induction false} SplitAppended(a: Text, lines: seq<Text>)
    requires forall i :: 0 <= i < |lines| ==> '\n' !in lines[i]
    ensures Split(a + Appended(lines), '\n') == Split(a, '\n') + lines
    decreases |lines|
  {
    hide Split;
    if lines == [] {
      assert a + Appended(lines) == a && Split(a, '\n') + lines == Split(a, '\n');
    } else {
      var n := |lines| - 1;
      SplitAppended(a, lines[..n]);
      SplitPlain(a + Appended(lines[..n]), lines[n]);
      assert a + Appended(lines) == a + Appended(lines[..n]) + "\n" + lines[n];
      assert Split(a, '\n') + lines[..n] + [lines[n]] == Split(a, '\n') + lines;
    }
  }

  lemma {:induction false} AppendedPlain(lines: seq<Text>)
    requires forall i :: 0 <= i < |lines| ==> '\r' !in lines[i] && '\0' !in lines[i]
    ensures '\r' !in Appended(lines) && '\0' !in Appended(lines)
    decreases |lines|
  {
    if lines != [] {
      AppendedPlain(lines[..|lines| - 1]);
    }
  }

  /** The merged text parses, with the winner's meaning and fingerprint, and its signatures
      followed by the appended ones. */
  lemma AppendedParses(text: Text, signatures: seq<Signature>)
    requires Parse(text).Some? && forall i :: 0 <= i < |signatures| ==> GoodSignature(signatures[i])
    ensures var w := Parse(text).value; var merged := AppendSignatures(w, RawLines(signatures));
      Parse(merged) == Some(w.(signatures := w.signatures + signatures, rawText := merged))
  {
    var w, lines := Parse(text).value, RawLines(signatures);
    ParsedIsFull(text);
    if signatures == [] {
      assert w.signatures + signatures == w.signatures;
    } else {
      var merged := AppendSignatures(w, lines);
      GoodLines(signatures);
      MergedText(w, lines);
      SplitAppended(Body(text), lines);
      hide Split, ParseLines, ScalarsOk, GoodSignature, Appended, SemanticsOf, Fingerprint, RawLines, LineText, Body, AppendSignatures;
      var p := ParseLines(Split(Body(text), '\n')).value;
      SignaturesParsed(Split(Body(text), '\n'), p, signatures);
    }
  }

  lemma MergedText(winner: NarInfo, lines: seq<Text>)
    requires LineText(winner.rawText) && lines != []
    requires forall i :: 0 <= i < |lines| ==> '\r' !in lines[i] && '\0' !in lines[i]
    ensures var merged := AppendSignatures(winner, lines);
      LineText(merged) && Body(merged) == Body(winner.rawText) + Appended(lines)
  {
    AppendedPlain(lines);
    hide Appended;
    var text, more := winner.rawText, Appended(lines);
    var merged := Body(text) + more + "\n";
    assert merged[..|merged| - 1] == Body(text) + more;
    assert merged[|merged| - 1] == '\n';
    WithoutChar(Body(text), more, '\r');
    WithoutChar(Body(text), more, '\0');
  }

  lemma WithoutChar(a: Text, b: Text, c: char)
    ensures c !in a && c !in b && c != '\n' ==> c !in a + b + "\n"
  {
  }

  lemma GoodLines(signatures: seq<Signature>)
    requires forall i :: 0 <= i < |signatures| ==> GoodSignature(signatures[i])
    ensures forall i :: 0 <= i < |signatures| ==>
      '\n' !in RawLines(signatures)[i] && '\r' !in RawLines(signatures)[i] && '\0' !in RawLines(signatures)[i]
  {
    hide EntryOf;
  }

  /** Every signature of a parsed narinfo can be appended to another. */
  lemma ParsedSignaturesGood(text: Text)
    requires Parse(text).Some?
    ensures forall i :: 0 <= i < |Parse(text).value.signatures| ==> GoodSignature(Parse(text).value.signatures[i])
  {
    var lines := Split(Body(text), '\n');
    forall i | 0 <= i < |lines| ensures PlainLine(lines[i]) {
      SplitLines(Body(text), i);
    }
    hide Split, ScalarsOk, ParseLines;
    LinesGood(lines);
  }

  ghost predicate PlainLine(s: Text) {
    '\n' !in s && '\r' !in s && '\0' !in s
  }

  lemma {:induction false} SplitLines(s: Text, i: nat)
    requires i < |Split(s, '\n')| && '\r' !in s && '\0' !in s
    ensures PlainLine(Split(s, '\n')[i])
    decreases |s|
  {
    if s != [] {
      var n := |s| - 1;
      var r := Split(s[..n], '\n');
      assert s[n] in s;
      if i < |r| {
        SplitLines(s[..n], i);
      }
    }
  }

  lemma {:induction false} LinesGood(lines: seq<Text>)
    requires ParseLines(lines).Some? && forall i :: 0 <= i < |lines| ==> PlainLine(lines[i])
    ensures forall i :: 0 <= i < |ParseLines(lines).value.signatures| ==> GoodSignature(ParseLines(lines).value.signatures[i])
    decreases |lines|
  {
    hide GoodSignature, ParseLine;
    if lines != [] {
      var n := |lines| - 1;
      LinesGood(lines[..n]);
      LineGood(ParseLines(lines[..n]).value, lines[n]);
    }
  }

  lemma LineGood(p: Parsed, line: Text)
    requires ParseLine(p, line).Some? && PlainLine(line)
    ensures var q := ParseLine(p, line).value;
      q.signatures == p.signatures || (q.signatures == p.signatures + [q.signatures[|p.signatures|]] && GoodSignature(q.signatures[|p.signatures|]))
  {
    hide Separator, FieldOf, SignatureText;
  }
}
