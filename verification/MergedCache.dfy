/** One narinfo from several publications: the first that has it wins, and where all agree the
    others lend it their signatures. */
module MergedCache {
  import opened Manifests
  import opened Grouping
  import opened NarInfos

  /** What resolving the path in one publication gives. */
  datatype Provided = Absent | Failed | Given(text: Text)

  datatype Conflict = Conflict(provider: nat, fields: seq<Field>)

  /** `Error` is an exception; providers are positions in the snapshot. */
  datatype Merge = Merged(providers: seq<nat>, record: NarInfo, text: Text, conflicts: seq<Conflict>) | NotFound | Error

  predicate Broken(p: Provided) {
    p.Failed? || (p.Given? && Parse(p.text).None?)
  }

  /** The publications that have the narinfo, in order. */
  function GivenAt(provided: seq<Provided>): (r: seq<nat>)
    ensures forall i :: 0 <= i < |r| ==> r[i] < |provided| && provided[r[i]].Given?
    ensures forall j :: 0 <= j < |provided| && provided[j].Given? ==> j in r
  {
    if provided == [] then []
    else
      var n := |provided| - 1;
      GivenAt(provided[..n]) + if provided[n].Given? then [n] else []
  }

  /** Every signature of the listed records, in order, repeats kept. */
  function AllSignatures(found: seq<NarInfo>): seq<Signature> {
    if found == [] then [] else AllSignatures(found[..|found| - 1]) + found[|found| - 1].signatures
  }

  ghost predicate Agree(found: seq<NarInfo>) {
    forall i :: 0 <= i < |found| ==> found[i].semantics == found[0].semantics
  }

  /** A record as parsing gives it. */
  ghost predicate FromText(n: NarInfo) {
    Parse(n.rawText) == Some(n)
  }

  /** The first loop: read and parse what each publication has. */
  method Collect(provided: seq<Provided>) returns (r: Option<seq<NarInfo>>)
    ensures r.None? <==> exists i :: 0 <= i < |provided| && Broken(provided[i])
    ensures r.Some? ==> |r.value| == |GivenAt(provided)|
    ensures r.Some? ==> forall i :: 0 <= i < |r.value| ==>
              FromText(r.value[i]) && Parse(provided[GivenAt(provided)[i]].text) == Some(r.value[i])
  {
    hide Parse;
    var found: seq<NarInfo> := [];
    var i := 0;
    while i < |provided|
      invariant 0 <= i <= |provided|
      invariant forall j :: 0 <= j < i ==> !Broken(provided[j])
      invariant |found| == |GivenAt(provided[..i])|
      invariant forall j :: 0 <= j < |found| ==>
                  FromText(found[j]) && Parse(provided[GivenAt(provided[..i])[j]].text) == Some(found[j])
    {
      assert provided[..i + 1][..i] == provided[..i];
      match provided[i] {
        case Absent =>
        case Failed => return None;
        case Given(text) =>
          var parsed := ParseNarInfo(text);
          if parsed.None? {
            return None;
          }
          ParsedIsFull(text);
          found := found + [parsed.value];
      }
      i := i + 1;
    }
    assert provided[..i] == provided;
    r := Some(found);
  }

  ghost predicate AllFull(found: seq<NarInfo>) {
    forall i :: 0 <= i < |found| ==> FullSemantics(found[i])
  }

  /** The records among the first `n` that disagree with the first, each with the fields that
      differ. */
  function ConflictsOf(found: seq<NarInfo>, providers: seq<nat>, n: nat): seq<Conflict>
    requires |providers| == |found| && n <= |found|
  {
    if n <= 1 then []
    else
      var fields := Differing(found[0], found[n - 1]);
      ConflictsOf(found, providers, n - 1) + if fields != [] then [Conflict(providers[n - 1], fields)] else []
  }

  lemma {:induction false} NoConflictsIff(found: seq<NarInfo>, providers: seq<nat>, n: nat)
    requires AllFull(found) && |providers| == |found| && n <= |found|
    ensures ConflictsOf(found, providers, n) == [] <==> forall i :: 0 <= i < n ==> found[i].semantics == found[0].semantics
  {
    hide Differing, FullSemantics;
    if n > 1 {
      NoConflictsIff(found, providers, n - 1);
      DifferingIff(found[0], found[n - 1]);
    }
  }

  /** The second loop: compare each record with the first. */
  method Conflicts(found: seq<NarInfo>, providers: seq<nat>) returns (conflicts: seq<Conflict>)
    requires found != [] && |providers| == |found|
    ensures conflicts == ConflictsOf(found, providers, |found|)
  {
    hide Differing;
    conflicts := [];
    var j := 1;
    while j < |found|
      invariant 1 <= j <= |found|
      invariant conflicts == ConflictsOf(found, providers, j)
    {
      var fields := Differing(found[0], found[j]);
      if fields != [] {
        conflicts := conflicts + [Conflict(providers[j], fields)];
      }
      j := j + 1;
    }
  }

  /** `resolveMergedNarInfo` */
  method ResolveMerged(provided: seq<Provided>) returns (r: Merge)
    ensures r.Error? <==> exists i :: 0 <= i < |provided| && Broken(provided[i])
    ensures r.NotFound? <==> forall i :: 0 <= i < |provided| ==> provided[i].Absent?
    ensures r.Merged? ==> MergedFrom(provided, r)
  {
    hide Broken, Parse, Agree, FullSemantics, MergedFrom, ConflictsOf;
    var collected := Collect(provided);
    if collected.None? {
      NotAllAbsent(provided);
      return Error;
    }
    var found := collected.value;
    var providers := GivenAt(provided);
    if found == [] {
      NoneGiven(provided);
      return NotFound;
    }
    assert provided[providers[0]].Given?;
    forall i | 0 <= i < |found| ensures FullSemantics(found[i]) {
      ParsedIsFull(found[i].rawText);
    }
    var conflicts := Conflicts(found, providers);
    ConflictsAgree(found, providers);
    if conflicts != [] {
      MergedUnchanged(provided, found);
      return Merged(providers, found[0], found[0].rawText, conflicts);
    }
    MergedAppended(provided, found);
    var text := AppendAll(found);
    r := Merged(providers, found[0], text, []);
  }

  /** Append the signature lines of every record after the first. */
  method AppendAll(found: seq<NarInfo>) returns (text: Text)
    requires found != [] && found[0].rawText != []
    ensures text == AppendSignatures(found[0], RawLines(AllSignatures(found[1..])))
  {
    hide AppendSignatures;
    var appended: seq<Text> := [];
    ghost var signatures: seq<Signature> := [];
    var i := 1;
    assert found[1..1] == [];
    while i < |found|
      invariant 1 <= i <= |found|
      invariant signatures == AllSignatures(found[1..i]) && appended == RawLines(signatures)
    {
      assert found[1..i + 1][..i - 1] == found[1..i];
      appended := appended + RawLines(found[i].signatures);
      signatures := signatures + found[i].signatures;
      i := i + 1;
    }
    assert found[1..i] == found[1..];
    text := AppendSignatures(found[0], appended);
  }

  /** The merged record is the first provider's.  Where all agree the text parses to that record
      with every provider's signatures in order; otherwise it is the first provider's text. */
  ghost predicate MergedFrom(provided: seq<Provided>, r: Merge)
    requires r.Merged?
  {
    exists found :: MergedOf(provided, found, r)
  }

  ghost predicate MergedOf(provided: seq<Provided>, found: seq<NarInfo>, r: Merge)
    requires r.Merged?
  {
    && r.providers == GivenAt(provided) && |found| == |r.providers| && found != []
    && (forall i :: 0 <= i < |found| ==> Parse(provided[r.providers[i]].text) == Some(found[i]))
    && r.record == found[0]
    && AllFull(found) && r.conflicts == ConflictsOf(found, r.providers, |found|) && (r.conflicts == [] <==> Agree(found))
    && (Agree(found) ==> Parse(r.text) == Some(found[0].(signatures := AllSignatures(found), rawText := r.text)))
    && (!Agree(found) ==> r.text == found[0].rawText)
  }

  lemma NotAllAbsent(provided: seq<Provided>)
    requires exists i :: 0 <= i < |provided| && Broken(provided[i])
    ensures !forall i :: 0 <= i < |provided| ==> provided[i].Absent?
  {
  }

  lemma NoneGiven(provided: seq<Provided>)
    requires GivenAt(provided) == [] && !exists i :: 0 <= i < |provided| && Broken(provided[i])
    ensures forall i :: 0 <= i < |provided| ==> provided[i].Absent?
  {
  }

  lemma ConflictsAgree(found: seq<NarInfo>, providers: seq<nat>)
    requires AllFull(found) && |providers| == |found|
    ensures ConflictsOf(found, providers, |found|) == [] <==> Agree(found)
  {
    hide FullSemantics, ConflictsOf;
    NoConflictsIff(found, providers, |found|);
  }

  lemma MergedUnchanged(provided: seq<Provided>, found: seq<NarInfo>)
    requires |found| == |GivenAt(provided)| && found != [] && !Agree(found) && AllFull(found)
    requires forall i :: 0 <= i < |found| ==> Parse(provided[GivenAt(provided)[i]].text) == Some(found[i])
    ensures MergedFrom(provided, Merged(GivenAt(provided), found[0], found[0].rawText, ConflictsOf(found, GivenAt(provided), |found|)))
  {
    hide Parse, ConflictsOf, AllFull, Agree;
    ConflictsAgree(found, GivenAt(provided));
    assert MergedOf(provided, found, Merged(GivenAt(provided), found[0], found[0].rawText, ConflictsOf(found, GivenAt(provided), |found|)));
  }

  lemma MergedAppended(provided: seq<Provided>, found: seq<NarInfo>)
    requires |found| == |GivenAt(provided)| && found != [] && Agree(found) && AllFull(found)
    requires forall i :: 0 <= i < |found| ==> FromText(found[i]) && Parse(provided[GivenAt(provided)[i]].text) == Some(found[i])
    ensures found[0].rawText != []
    ensures MergedFrom(provided, Merged(GivenAt(provided), found[0], AppendSignatures(found[0], RawLines(AllSignatures(found[1..]))), []))
  {
    hide ConflictsOf, AllFull, Agree, GivenAt, GoodSignature, RawLines, AllSignatures, AppendSignatures;
    ConflictsAgree(found, GivenAt(provided));
    MergedParses(found);
    hide Parse;
    assert MergedOf(provided, found, Merged(GivenAt(provided), found[0], AppendSignatures(found[0], RawLines(AllSignatures(found[1..]))), []));
  }

  lemma MergedParses(found: seq<NarInfo>)
    requires found != [] && forall i :: 0 <= i < |found| ==> FromText(found[i])
    ensures found[0].rawText != []
    ensures var text := AppendSignatures(found[0], RawLines(AllSignatures(found[1..])));
      Parse(text) == Some(found[0].(signatures := AllSignatures(found), rawText := text))
  {
    assert FromText(found[0]);
    assert LineText(found[0].rawText);
    hide Parse, GoodSignature, AppendSignatures, LineText, RawLines;
    AllGood(found[1..]);
    AppendedParses(found[0].rawText, AllSignatures(found[1..]));
    AllSignaturesCons(found);
  }

  lemma {:induction false} AllGood(found: seq<NarInfo>)
    requires forall i :: 0 <= i < |found| ==> FromText(found[i])
    ensures forall i :: 0 <= i < |AllSignatures(found)| ==> GoodSignature(AllSignatures(found)[i])
    decreases |found|
  {
    hide Parse, GoodSignature;
    if found != [] {
      var n := |found| - 1;
      AllGood(found[..n]);
      assert FromText(found[n]);
      ParsedSignaturesGood(found[n].rawText);
    }
  }

  lemma {:induction false} AllSignaturesCons(found: seq<NarInfo>)
    requires found != []
    ensures AllSignatures(found) == found[0].signatures + AllSignatures(found[1..])
    decreases |found|
  {
    if |found| == 1 {
      assert found[..0] == [] && found[1..] == [];
    } else {
      var n := |found| - 1;
      AllSignaturesCons(found[..n]);
      assert found[..n][1..] == found[1..][..n - 1];
      assert found[1..][n - 1] == found[n] && found[..n][0] == found[0];
      var middle := AllSignatures(found[1..][..n - 1]);
      assert AllSignatures(found[1..]) == middle + found[n].signatures;
      assert found[0].signatures + middle + found[n].signatures == found[0].signatures + (middle + found[n].signatures);
    }
  }
}
