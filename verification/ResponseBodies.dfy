/** The stream of a response body, pulled chunk by chunk from a socket. */
module ResponseBodies {
  import opened Manifests
  import opened Grouping
  import opened ChunkedBody

  datatype Pulled = Data(bytes: Bytes) | Closed | Failed(failure: Failure)

  /** A pull delivers a first part of what was to come, or says how it ends. */
  ghost predicate Advances(before: Outcome, r: Pulled, after: Outcome) {
    match r
    case Data(bytes) => before == Prepend(bytes, after)
    case Closed => before == Ok([])
    case Failed(e) => before == Err(e)
  }

  class ResponseBody {
    var framing: Framing
    var remainder: Bytes
    /** What the socket's reads will deliver; then the connection ends. */
    var incoming: seq<Bytes>

    constructor (framing: Framing, initial: Bytes, incoming: seq<Bytes>)
      ensures this.framing == framing && remainder == initial && this.incoming == incoming
    {
      this.framing, remainder, this.incoming := framing, initial, incoming;
    }

    ghost function Left(): nat
      reads this
    {
      |Ahead(remainder, incoming)|
    }

    method ReadMore() returns (ok: bool)
      modifies this`remainder, this`incoming
      ensures ok <==> old(incoming) != []
      ensures ok ==> remainder == old(remainder + incoming[0]) && incoming == old(incoming[1..])
      ensures Ahead(remainder, incoming) == old(Ahead(remainder, incoming))
      ensures !ok ==> remainder == old(remainder) && incoming == old(incoming)
    {
      ok := incoming != [];
      if ok {
        AheadMore(remainder, incoming);
        remainder, incoming := remainder + incoming[0], incoming[1..];
      }
    }

    /** `takeLine`: look for a line break, read more where there is none. */
    method NextLine(ceiling: nat) returns (r: Taken)
      modifies this`remainder, this`incoming
      ensures r == old(TakeLine(remainder, incoming, ceiling))
      ensures r.Taken? ==> remainder == r.remainder && incoming == r.incoming
      ensures Left() <= old(Left())
    {
      while true
        invariant Ahead(remainder, incoming) == old(Ahead(remainder, incoming))
        invariant TakeLine(remainder, incoming, ceiling) == old(TakeLine(remainder, incoming, ceiling))
        decreases |incoming|
      {
        hide LineEnd;
        var found := FindBreak(remainder);
        if found.Some? {
          var i := found.value;
          if i > ceiling {
            return NotTaken(LineTooLong);
          }
          var line := remainder[..i];
          remainder := remainder[i + 2..];
          return Taken(line, remainder, incoming);
        }
        if |remainder| > ceiling {
          return NotTaken(LineTooLong);
        }
        var ok := ReadMore();
        if !ok {
          return NotTaken(PrematureEnd);
        }
      }
    }

    /** One `pull`. */
    method Pull() returns (r: Pulled)
      modifies this
      ensures Advances(old(Outlook(framing, remainder, incoming)), r, Outlook(framing, remainder, incoming))
      ensures Left() <= old(Left())
      ensures r.Data? ==> Left() < old(Left()) || |incoming| < |old(incoming)|
    {
      hide Run, RunChunk;
      match framing {
        case Length(left) =>
          r := PullLength(left);
        case Chunked(n, done) =>
          if done {
            return Closed;
          }
          r := PullChunked(n);
      }
    }

    method PullLength(left: nat) returns (r: Pulled)
      requires framing == Length(left)
      modifies this
      ensures Advances(old(Outlook(framing, remainder, incoming)), r, Outlook(framing, remainder, incoming))
      ensures Left() <= old(Left())
      ensures r.Data? ==> Left() < old(Left()) || |incoming| < |old(incoming)|
    {
      hide Run, RunChunk;
      ghost var s := Ahead(remainder, incoming);
      if left == 0 {
        assert s[..0] == [];
        return Closed;
      }
      if remainder == [] {
        var ok := ReadMore();
        if !ok {
          return Failed(PrematureEnd);
        }
      }
      var allowed := if |remainder| < left then |remainder| else left;
      var chunk := remainder[..allowed];
      LengthStep(left, remainder, incoming, allowed);
      remainder := remainder[allowed..];
      framing := Length(left - allowed);
      r := Data(chunk);
    }

    method PullChunked(remaining: nat) returns (r: Pulled)
      requires framing == Chunked(remaining, false)
      modifies this
      ensures Advances(old(Outlook(framing, remainder, incoming)), r, Outlook(framing, remainder, incoming))
      ensures Left() <= old(Left())
      ensures r.Data? ==> Left() < old(Left()) || |incoming| < |old(incoming)|
    {
      hide TakeLine, SizeOf, RunChunk, RunTrailers, Ahead;
      var n := remaining;
      if n == 0 {
        var line := NextLine(SIZE_LINE_CEILING);
        if line.NotTaken? {
          return Failed(line.failure);
        }
        var size := SizeOf(line.text);
        if size.None? {
          return Failed(BadSize);
        }
        n := size.value;
        if n == 0 {
          r := PullTrailers();
          framing := Chunked(0, r.Closed?);
          return;
        }
      }
      r := PullData(n);
    }

    method PullTrailers() returns (r: Pulled)
      modifies this`remainder, this`incoming
      ensures !r.Data? && Advances(old(RunTrailers(remainder, incoming, 0)), r, Ok([]))
      ensures Left() <= old(Left())
    {
      var total: nat := 0;
      while true
        invariant RunTrailers(remainder, incoming, total) == old(RunTrailers(remainder, incoming, 0))
        invariant Left() <= old(Left())
        decreases Left()
      {
        hide TakeLine, Ahead, TrailerOk;
        var line := NextLine(TRAILER_LINE_CEILING);
        if line.NotTaken? {
          return Failed(line.failure);
        }
        total := total + |line.text| + 2;
        if total > TRAILER_BYTES {
          return Failed(BadTrailers);
        }
        if line.text == [] {
          return Closed;
        }
        if !TrailerOk(line.text) {
          return Failed(BadTrailers);
        }
      }
    }

    method PullData(n: nat) returns (r: Pulled)
      requires n > 0
      modifies this
      ensures !r.Closed? && Advances(old(RunChunk(n, remainder, incoming)), r, Outlook(framing, remainder, incoming))
      ensures Left() <= old(Left())
      ensures r.Data? ==> Left() < old(Left()) || |incoming| < |old(incoming)|
    {
      hide Run, RunDelimiter;
      if remainder == [] {
        var ok := ReadMore();
        if !ok {
          return Failed(PrematureEnd);
        }
      }
      assert RunChunk(n, remainder, incoming) == old(RunChunk(n, remainder, incoming));
      if remainder == [] {
        framing := Chunked(n, false);
        PrependNothing(RunChunk(n, remainder, incoming));
        return Data([]);
      }
      if |remainder| < n {
        var chunk := remainder;
        framing := Chunked(n - |remainder|, false);
        assert Ahead([], incoming) == Concat(incoming);
        remainder := [];
        return Data(chunk);
      }
      var chunk := remainder[..n];
      remainder := remainder[n..];
      framing := Chunked(0, false);
      var failure := PullDelimiter(chunk);
      r := if failure.None? then Data(chunk) else Failed(failure.value);
    }

    /** The two bytes after a chunk's data. */
    method PullDelimiter(ghost data: Bytes) returns (r: Option<Failure>)
      modifies this`remainder, this`incoming
      ensures old(RunDelimiter(data, remainder, incoming)) ==
              if r.Some? then Err(r.value) else Prepend(data, Run(remainder, incoming))
      ensures Left() <= old(Left())
    {
      while |remainder| < 2
        invariant RunDelimiter(data, remainder, incoming) == old(RunDelimiter(data, remainder, incoming))
        invariant Left() <= old(Left())
        decreases |incoming|
      {
        hide Run;
        var ok := ReadMore();
        if !ok {
          return Some(PrematureEnd);
        }
      }
      hide Run;
      if remainder[0] != CR || remainder[1] != LF {
        return Some(BadDelimiter);
      }
      remainder := remainder[2..];
      r := None;
    }

    /** Pulling to the end collects exactly what the framing and the bytes ahead mean. */
    method ReadAll() returns (r: Outcome)
      modifies this
      ensures r == old(Outlook(framing, remainder, incoming))
    {
      var collected: Bytes := [];
      PrependNothing(Outlook(framing, remainder, incoming));
      while true
        invariant Prepend(collected, Outlook(framing, remainder, incoming)) == old(Outlook(framing, remainder, incoming))
        invariant Left() <= old(Left())
        decreases Left(), |incoming|
      {
        hide Outlook, Ahead;
        ghost var before := Outlook(framing, remainder, incoming);
        var pulled := Pull();
        match pulled {
          case Data(bytes) =>
            PrependTwice(collected, bytes, Outlook(framing, remainder, incoming));
            collected := collected + bytes;
          case Closed =>
            assert collected + [] == collected;
            return Ok(collected);
          case Failed(e) => return Err(e);
        }
      }
    }
  }

  lemma PrependNothing(o: Outcome)
    ensures Prepend([], o) == o
  {
  }

  lemma CutTwice(s: Bytes, k: nat, left: nat)
    requires k <= left <= |s|
    ensures s[..left] == s[..k] + s[k..][..left - k] && s[left..] == s[k..][left - k..]
  {
  }

  lemma LengthStep(left: nat, remainder: Bytes, incoming: seq<Bytes>, k: nat)
    requires k <= left && k <= |remainder|
    ensures DecodeLength(left, Ahead(remainder, incoming)) ==
            Prepend(remainder[..k], DecodeLength(left - k, Ahead(remainder[k..], incoming)))
    ensures |Ahead(remainder[k..], incoming)| == |Ahead(remainder, incoming)| - k
  {
    var s := Ahead(remainder, incoming);
    assert Ahead(remainder[k..], incoming) == s[k..];
    assert s[..k] == remainder[..k];
    if |s| >= left {
      CutTwice(s, k, left);
    }
  }

  /** The scan for a carriage return followed by a line feed. */
  method FindBreak(s: Bytes) returns (r: Option<nat>)
    ensures r == LineEnd(s)
  {
    var i := 0;
    while i + 1 < |s|
      invariant 0 <= i
      invariant forall j: nat :: j < i ==> !BreakAt(s, j)
    {
      if s[i] == CR && s[i + 1] == LF {
        LineEndIs(s, i);
        return Some(i);
      }
      i := i + 1;
    }
    r := None;
  }
}
