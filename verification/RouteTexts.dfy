/** Routes as texts, and the segments between their slashes. */
module RouteTexts {
  import opened NameOrder
  import opened Tables

  /** What comes before the first slash. */
  function UpToSlash(text: string): (r: string)
    ensures |r| <= |text| && '/' !in r
    ensures |r| < |text| ==> text[|r|] == '/'
    ensures text[..|r|] == r
  {
    if text == "" || text[0] == '/' then "" else [text[0]] + UpToSlash(text[1..])
  }

  /** `split("/")`, front to back. */
  function Split(text: string): (r: seq<Name>)
    ensures r != []
  {
    var first := UpToSlash(text);
    if |first| == |text| then [first] else [first] + Split(text[|first| + 1..])
  }

  predicate Filled(segments: seq<Name>) {
    forall i :: 0 <= i < |segments| ==> segments[i] != ""
  }

  /** A text without empty segments: dropping them leaves the segments as they are. */
  type RouteText = t: string | t == "" || Filled(Split(t)) witness "a"

  /** `split("/").filter(Boolean)` */
  function Segments(text: RouteText): Route {
    if text == "" then [] else Split(text)
  }

  lemma {:induction false} UpToSlashIs(a: string, rest: string)
    requires '/' !in a
    ensures UpToSlash(a) == a && UpToSlash(a + "/" + rest) == a
  {
    if a != "" {
      assert a[0] in a;
      UpToSlashIs(a[1..], rest);
      assert (a + "/" + rest)[1..] == a[1..] + "/" + rest;
    }
  }

  /** Segments come in the order they are written: this determines the split. */
  lemma SplitSegment(a: Name, rest: string)
    requires '/' !in a
    ensures Split(a) == [a] && Split(a + "/" + rest) == [a] + Split(rest)
  {
    UpToSlashIs(a, rest);
    assert (a + "/" + rest)[|a| + 1..] == rest;
  }

  /** The segments with slashes between them. */
  function TextOf(segments: seq<Name>): string {
    if segments == [] then "" else if |segments| == 1 then segments[0] else segments[0] + "/" + TextOf(segments[1..])
  }

  lemma {:induction false} SplitTextOf(segments: seq<Name>)
    requires segments != [] && forall i :: 0 <= i < |segments| ==> '/' !in segments[i]
    ensures Split(TextOf(segments)) == segments
    decreases |segments|
  {
    hide Split;
    if |segments| > 1 {
      SplitTextOf(segments[1..]);
      SplitSegment(segments[0], TextOf(segments[1..]));
    } else {
      SplitSegment(segments[0], "");
    }
  }

  lemma {:induction false} TextOfSplit(text: string)
    ensures TextOf(Split(text)) == text
    ensures forall i :: 0 <= i < |Split(text)| ==> '/' !in Split(text)[i]
    decreases |text|
  {
    var first := UpToSlash(text);
    if |first| < |text| {
      TextOfSplit(text[|first| + 1..]);
      assert text == first + "/" + text[|first| + 1..];
    }
  }

  /** Different texts have different segments, and every list of filled segments has its text. */
  lemma SegmentsTexts(a: RouteText, b: RouteText)
    ensures Segments(a) == Segments(b) <==> a == b
    ensures TextOf(Segments(a)) == a
  {
    TextOfSplit(a);
    TextOfSplit(b);
  }
}
