/** Response bodies: length framing, and chunked framing as in section 7.1 of RFC 9112. */
module ChunkedBody {
  import opened Manifests
  import opened Grouping

  const CR: byte := 13
  const LF: byte := 10
  const SIZE_LINE_CEILING: nat := 4096
  const TRAILER_LINE_CEILING: nat := 8192
  const TRAILER_BYTES: nat := 32 * 1024

  datatype Failure = PrematureEnd | LineTooLong | BadSize | BadTrailers | BadDelimiter

  datatype Outcome = Ok(data: Bytes) | Err(failure: Failure)

  function Prepend(data: Bytes, o: Outcome): Outcome {
    match o case Ok(rest) => Ok(data + rest) case Err(_) => o
  }

  lemma PrependTwice(a: Bytes, b: Bytes, o: Outcome)
    ensures Prepend(a, Prepend(b, o)) == Prepend(a + b, o)
  {
    if o.Ok? {
      assert a + (b + o.data) == a + b + o.data;
    }
  }

  // ---- Lines ----

  predicate BreakAt(s: Bytes, i: nat) {
    i + 1 < |s| && s[i] == CR && s[i + 1] == LF
  }

  /** Where the first line break is. */
  function LineEnd(s: Bytes): (r: Option<nat>)
    ensures r.Some? ==> BreakAt(s, r.value) && forall j: nat :: j < r.value ==> !BreakAt(s, j)
    ensures r.None? ==> forall j: nat :: !BreakAt(s, j)
  {
    if |s| < 2 then None
    else if BreakAt(s, 0) then Some(0)
    else
      var rest := LineEnd(s[1..]);
      assert forall j: nat :: j > 0 ==> (BreakAt(s, j) <==> BreakAt(s[1..], j - 1));
      if rest.None? then None else Some(rest.value + 1)
  }

  lemma LineEndIs(s: Bytes, i: nat)
    requires BreakAt(s, i) && forall j: nat :: j < i ==> !BreakAt(s, j)
    ensures LineEnd(s) == Some(i)
  {
  }

  /** More bytes do not move a line break that is already there. */
  lemma LineEndAppend(s: Bytes, t: Bytes)
    ensures LineEnd(s).Some? ==> LineEnd(s + t) == LineEnd(s)
    ensures LineEnd(s).None? && LineEnd(s + t).Some? ==> LineEnd(s + t).value + 1 >= |s|
  {
    assert forall j: nat :: j + 1 < |s| ==> (BreakAt(s + t, j) <==> BreakAt(s, j));
    if LineEnd(s).Some? {
      LineEndIs(s + t, LineEnd(s).value);
    }
  }

  datatype Line = Line(text: Bytes, rest: Bytes) | NoLine(failure: Failure)

  /** The next line of a whole stream. */
  function NextLine(s: Bytes, ceiling: nat): (r: Line)
    ensures r.Line? ==> |r.rest| < |s|
  {
    match LineEnd(s)
    case None => NoLine(if |s| > ceiling then LineTooLong else PrematureEnd)
    case Some(i) => if i > ceiling then NoLine(LineTooLong) else Line(s[..i], s[i + 2..])
  }

  // ---- Size lines and trailers ----

  function HexDigit(b: byte): Option<nat> {
    if 48 <= b <= 57 then Some(b as nat - 48)
    else if 65 <= b <= 70 then Some(b as nat - 55)
    else if 97 <= b <= 102 then Some(b as nat - 87)
    else None
  }

  function HexValue(token: Bytes): Option<nat> {
    if token == [] then Some(0)
    else
      var high, low := HexValue(token[..|token| - 1]), HexDigit(token[|token| - 1]);
      if high.None? || low.None? then None else Some(high.value * 16 + low.value)
  }

  function Before(s: Bytes, b: byte): Bytes {
    if s == [] || s[0] == b then [] else [s[0]] + Before(s[1..], b)
  }

  /** The size a size line announces; extensions after a semicolon are ignored. */
  function SizeOf(line: Bytes): Option<nat> {
    var token := Before(line, 59);
    if token == [] then None
    else
      var value := HexValue(token);
      if value.Some? && value.value > MAX_SAFE then None else value
  }

  predicate TokenByte(b: byte) {
    || 48 <= b <= 57 || 65 <= b <= 90 || 97 <= b <= 122
    || b in [33, 35, 36, 37, 38, 39, 42, 43, 45, 46, 94, 95, 96, 124, 126]
  }

  predicate FieldByte(b: byte) {
    b == 9 || 32 <= b <= 126
  }

  function Lower(s: Bytes): Bytes {
    seq(|s|, i requires 0 <= i < |s| => if 65 <= s[i] <= 90 then s[i] + 32 else s[i])
  }

  function Ascii(s: string): Bytes
    requires forall i :: 0 <= i < |s| ==> s[i] < 128 as char
  {
    seq(|s|, i requires 0 <= i < |s| => s[i] as int as byte)
  }

  predicate ForbiddenTrailer(name: Bytes) {
    Lower(name) in [Ascii("content-length"), Ascii("transfer-encoding"), Ascii("host"), Ascii("trailer")]
  }

  predicate TrailerOk(line: Bytes) {
    var name := Before(line, 58);
    && 0 < |name| < |line|
    && (forall i :: 0 <= i < |name| ==> TokenByte(name[i]))
    && (forall i :: |name| < i < |line| ==> FieldByte(line[i]))
    && !ForbiddenTrailer(name)
  }

  // ---- What a whole stream means ----

  function Decode(s: Bytes): Outcome
    decreases |s|, 1
  {
    match NextLine(s, SIZE_LINE_CEILING)
    case NoLine(e) => Err(e)
    case Line(line, rest) =>
      match SizeOf(line)
      case None => Err(BadSize)
      case Some(n) => if n == 0 then DecodeTrailers(rest, 0) else DecodeChunk(n, rest)
  }

  function DecodeChunk(n: nat, s: Bytes): Outcome
    decreases |s|, 0
  {
    if |s| < n + 2 then Err(PrematureEnd)
    else if s[n] != CR || s[n + 1] != LF then Err(BadDelimiter)
    else Prepend(s[..n], Decode(s[n + 2..]))
  }

  function DecodeTrailers(s: Bytes, before: nat): Outcome
    decreases |s|
  {
    match NextLine(s, TRAILER_LINE_CEILING)
    case NoLine(e) => Err(e)
    case Line(line, rest) =>
      var total := before + |line| + 2;
      if total > TRAILER_BYTES then Err(BadTrailers)
      else if line == [] then Ok([])
      else if !TrailerOk(line) then Err(BadTrailers)
      else DecodeTrailers(rest, total)
  }

  /** No line read is exactly as long as its ceiling. */
  predicate Clear(s: Bytes)
    decreases |s|, 1
  {
    && LineEnd(s) != Some(SIZE_LINE_CEILING)
    && match NextLine(s, SIZE_LINE_CEILING)
       case NoLine(_) => true
       case Line(line, rest) =>
         match SizeOf(line)
         case None => true
         case Some(n) => if n == 0 then ClearTrailers(rest, 0) else ClearChunk(n, rest)
  }

  predicate ClearChunk(n: nat, s: Bytes)
    decreases |s|, 0
  {
    |s| >= n + 2 && s[n] == CR && s[n + 1] == LF ==> Clear(s[n + 2..])
  }

  predicate ClearTrailers(s: Bytes, before: nat)
    decreases |s|
  {
    && LineEnd(s) != Some(TRAILER_LINE_CEILING)
    && match NextLine(s, TRAILER_LINE_CEILING)
       case NoLine(_) => true
       case Line(line, rest) =>
         var total := before + |line| + 2;
         total <= TRAILER_BYTES && line != [] && TrailerOk(line) ==> ClearTrailers(rest, total)
  }

  // ---- What the reader does, read by read ----

  /** All that is still to come. */
  function Ahead(remainder: Bytes, incoming: seq<Bytes>): Bytes {
    remainder + Concat(incoming)
  }

  lemma AheadMore(remainder: Bytes, incoming: seq<Bytes>)
    requires incoming != []
    ensures Ahead(remainder + incoming[0], incoming[1..]) == Ahead(remainder, incoming)
  {
    assert remainder + incoming[0] + Concat(incoming[1..]) == remainder + (incoming[0] + Concat(incoming[1..]));
  }

  datatype Taken = Taken(text: Bytes, remainder: Bytes, incoming: seq<Bytes>) | NotTaken(failure: Failure)

  /** `takeLine` */
  function TakeLine(remainder: Bytes, incoming: seq<Bytes>, ceiling: nat): (r: Taken)
    ensures r.Taken? ==> |Ahead(r.remainder, r.incoming)| < |Ahead(remainder, incoming)|
    decreases |incoming|
  {
    match LineEnd(remainder)
    case Some(i) => if i > ceiling then NotTaken(LineTooLong) else Taken(remainder[..i], remainder[i + 2..], incoming)
    case None =>
      if |remainder| > ceiling then NotTaken(LineTooLong)
      else if incoming == [] then NotTaken(PrematureEnd)
      else AheadMore(remainder, incoming); TakeLine(remainder + incoming[0], incoming[1..], ceiling)
  }

  function Run(remainder: Bytes, incoming: seq<Bytes>): Outcome
    decreases |Ahead(remainder, incoming)|, |incoming|, 2
  {
    match TakeLine(remainder, incoming, SIZE_LINE_CEILING)
    case NotTaken(e) => Err(e)
    case Taken(line, more, later) =>
      match SizeOf(line)
      case None => Err(BadSize)
      case Some(n) => if n == 0 then RunTrailers(more, later, 0) else RunChunk(n, more, later)
  }

  /** Inside a chunk, `n` bytes before its end. */
  function RunChunk(n: nat, remainder: Bytes, incoming: seq<Bytes>): Outcome
    requires n > 0
    decreases |Ahead(remainder, incoming)|, |incoming|, 1
  {
    if remainder == [] then
      if incoming == [] then Err(PrematureEnd)
      else AheadMore([], incoming); RunChunk(n, [] + incoming[0], incoming[1..])
    else if |remainder| < n then Prepend(remainder, RunChunk(n - |remainder|, [], incoming))
    else RunDelimiter(remainder[..n], remainder[n..], incoming)
  }

  function RunDelimiter(data: Bytes, remainder: Bytes, incoming: seq<Bytes>): Outcome
    decreases |Ahead(remainder, incoming)|, |incoming|, 1
  {
    if |remainder| < 2 then
      if incoming == [] then Err(PrematureEnd)
      else AheadMore(remainder, incoming); RunDelimiter(data, remainder + incoming[0], incoming[1..])
    else if remainder[0] != CR || remainder[1] != LF then Err(BadDelimiter)
    else Prepend(data, Run(remainder[2..], incoming))
  }

  function RunTrailers(remainder: Bytes, incoming: seq<Bytes>, before: nat): Outcome
    decreases |Ahead(remainder, incoming)|
  {
    match TakeLine(remainder, incoming, TRAILER_LINE_CEILING)
    case NotTaken(e) => Err(e)
    case Taken(line, more, later) =>
      var total := before + |line| + 2;
      if total > TRAILER_BYTES then Err(BadTrailers)
      else if line == [] then Ok([])
      else if !TrailerOk(line) then Err(BadTrailers)
      else RunTrailers(more, later, total)
  }

  // ---- Reads do not matter, short of a line at its ceiling ----

  ghost predicate SameLine(t: Taken, l: Line) {
    match l
    case NoLine(e) => t == NotTaken(e)
    case Line(text, rest) => t.Taken? && t.text == text && Ahead(t.remainder, t.incoming) == rest
  }

  lemma {:induction false} TakeLineSplit(remainder: Bytes, incoming: seq<Bytes>, ceiling: nat)
    ensures || SameLine(TakeLine(remainder, incoming, ceiling), NextLine(Ahead(remainder, incoming), ceiling))
            || (LineEnd(Ahead(remainder, incoming)) == Some(ceiling) && TakeLine(remainder, incoming, ceiling) == NotTaken(LineTooLong))
    decreases |incoming|
  {
    var s := Ahead(remainder, incoming);
    LineEndAppend(remainder, Concat(incoming));
    match LineEnd(remainder)
    case Some(i) =>
      assert s[..i] == remainder[..i] && s[i + 2..] == remainder[i + 2..] + Concat(incoming);
    case None =>
      if |remainder| <= ceiling {
        if incoming == [] {
          assert s == remainder;
        } else {
          AheadMore(remainder, incoming);
          TakeLineSplit(remainder + incoming[0], incoming[1..], ceiling);
        }
      }
  }

  /** Taking a line gives the same however the reads fall exactly when it is not at its ceiling. */
  lemma TakeLineSplitIff(s: Bytes, ceiling: nat)
    ensures (forall remainder, incoming :: Ahead(remainder, incoming) == s ==> SameLine(TakeLine(remainder, incoming, ceiling), NextLine(s, ceiling)))
       <==> LineEnd(s) != Some(ceiling)
  {
    if LineEnd(s) != Some(ceiling) {
      forall remainder, incoming | Ahead(remainder, incoming) == s ensures SameLine(TakeLine(remainder, incoming, ceiling), NextLine(s, ceiling)) {
        TakeLineSplit(remainder, incoming, ceiling);
      }
    } else {
      CutBeforeFeed(s, ceiling);
      assert Ahead(s[..ceiling + 1], [s[ceiling + 1..]]) == s;
    }
  }

  /** A read that ends between the two bytes of the line break. */
  lemma CutBeforeFeed(s: Bytes, ceiling: nat)
    requires LineEnd(s) == Some(ceiling)
    ensures TakeLine(s[..ceiling + 1], [s[ceiling + 1..]], ceiling) == NotTaken(LineTooLong)
    ensures Ahead(s[..ceiling + 1], [s[ceiling + 1..]]) == s
  {
    var a, b := s[..ceiling + 1], s[ceiling + 1..];
    AheadCut(s, ceiling + 1);
    assert forall j: nat :: BreakAt(a, j) ==> BreakAt(s, j);
    assert LineEnd(a).None?;
  }

  lemma AheadCut(s: Bytes, k: nat)
    requires k <= |s|
    ensures Ahead(s[..k], [s[k..]]) == s
  {
    assert [s[k..]][1..] == [];
    assert Concat([s[k..]]) == s[k..] + [];
    assert s[..k] + s[k..] == s;
  }

  /** The run is what the stream means, unless a line at its ceiling was cut in two. */
  ghost predicate AsDecoded(run: Outcome, decoded: Outcome, clear: bool) {
    run == decoded || (!clear && run == Err(LineTooLong))
  }

  lemma {:induction false} RunSplit(remainder: Bytes, incoming: seq<Bytes>)
    ensures AsDecoded(Run(remainder, incoming), Decode(Ahead(remainder, incoming)), Clear(Ahead(remainder, incoming)))
    decreases |Ahead(remainder, incoming)|, |incoming|, 2
  {
    hide SizeOf, TakeLine, NextLine, LineEnd, Ahead, RunChunk, DecodeChunk, ClearChunk, RunTrailers, DecodeTrailers, ClearTrailers;
    TakeLineSplit(remainder, incoming, SIZE_LINE_CEILING);
    match TakeLine(remainder, incoming, SIZE_LINE_CEILING)
    case NotTaken(e) =>
    case Taken(line, more, later) =>
      match SizeOf(line)
      case None =>
      case Some(n) =>
        if n == 0 {
          TrailersSplit(more, later, 0);
        } else {
          ChunkSplit(n, more, later);
        }
  }

  lemma {:induction false} ChunkSplit(n: nat, remainder: Bytes, incoming: seq<Bytes>)
    requires n > 0
    ensures AsDecoded(RunChunk(n, remainder, incoming), DecodeChunk(n, Ahead(remainder, incoming)), ClearChunk(n, Ahead(remainder, incoming)))
    decreases |Ahead(remainder, incoming)|, |incoming|, 1
  {
    hide Decode, Clear, Run, RunDelimiter, TakeLine, NextLine, LineEnd, SizeOf;
    var s := Ahead(remainder, incoming);
    if remainder == [] {
      if incoming != [] {
        AheadMore([], incoming);
        ChunkSplit(n, [] + incoming[0], incoming[1..]);
      }
    } else if |remainder| < n {
      ChunkSplit(n - |remainder|, [], incoming);
      assert Ahead([], incoming) == s[|remainder|..];
      ChunkPrefix(n, s, |remainder|);
    } else {
      assert remainder[n..] + Concat(incoming) == s[n..];
      DelimiterSplit(remainder[..n], remainder[n..], incoming);
      assert s == remainder[..n] + s[n..];
    }
  }

  lemma ChunkPrefix(n: nat, s: Bytes, k: nat)
    requires k <= |s| && k < n
    ensures DecodeChunk(n, s) == Prepend(s[..k], DecodeChunk(n - k, s[k..]))
    ensures ClearChunk(n, s) == ClearChunk(n - k, s[k..])
  {
    hide Decode, Clear;
    if |s| >= n + 2 {
      assert s[k..][n - k] == s[n] && s[k..][n - k + 1] == s[n + 1];
      assert s[k..][n - k + 2..] == s[n + 2..];
      assert s[..k] + s[k..][..n - k] == s[..n];
      PrependTwice(s[..k], s[k..][..n - k], Decode(s[n + 2..]));
    }
  }

  lemma {:induction false} DelimiterSplit(data: Bytes, remainder: Bytes, incoming: seq<Bytes>)
    ensures AsDecoded(RunDelimiter(data, remainder, incoming), DecodeChunk(|data|, data + Ahead(remainder, incoming)),
                      ClearChunk(|data|, data + Ahead(remainder, incoming)))
    decreases |Ahead(remainder, incoming)|, |incoming|, 1
  {
    hide Decode, Clear, Run, TakeLine, NextLine, LineEnd, SizeOf;
    var n, s := |data|, data + Ahead(remainder, incoming);
    if |remainder| < 2 {
      if incoming != [] {
        AheadMore(remainder, incoming);
        DelimiterSplit(data, remainder + incoming[0], incoming[1..]);
      }
    } else {
      assert s[n] == remainder[0] && s[n + 1] == remainder[1];
      if remainder[0] == CR && remainder[1] == LF {
        RunSplit(remainder[2..], incoming);
        assert s[n + 2..] == Ahead(remainder[2..], incoming);
        assert s[..n] == data;
      }
    }
  }

  lemma {:induction false} TrailersSplit(remainder: Bytes, incoming: seq<Bytes>, before: nat)
    ensures AsDecoded(RunTrailers(remainder, incoming, before), DecodeTrailers(Ahead(remainder, incoming), before),
                      ClearTrailers(Ahead(remainder, incoming), before))
    decreases |Ahead(remainder, incoming)|
  {
    hide TrailerOk, TakeLine, NextLine, LineEnd, Ahead;
    TakeLineSplit(remainder, incoming, TRAILER_LINE_CEILING);
    match TakeLine(remainder, incoming, TRAILER_LINE_CEILING)
    case NotTaken(e) =>
    case Taken(line, more, later) =>
      var total := before + |line| + 2;
      if total <= TRAILER_BYTES && line != [] && TrailerOk(line) {
        TrailersSplit(more, later, total);
      }
  }

  // ---- Exactly when reads do not matter ----

  lemma TakeWhole(s: Bytes, ceiling: nat, k: nat)
    requires LineEnd(s).Some? && LineEnd(s).value <= ceiling && LineEnd(s).value + 2 <= k <= |s|
    ensures var i := LineEnd(s).value;
      TakeLine(s[..k], [s[k..]], ceiling) == Taken(s[..i], s[i + 2..][..k - i - 2], [s[i + 2..][k - i - 2..]])
  {
    var i := LineEnd(s).value;
    assert forall j: nat :: j <= i ==> (BreakAt(s[..k], j) <==> BreakAt(s, j));
    LineEndIs(s[..k], i);
    assert s[..k][..i] == s[..i] && s[..k][i + 2..] == s[i + 2..][..k - i - 2] && s[k..] == s[i + 2..][k - i - 2..];
  }

  /** Where some line is at its ceiling, a read ending inside its break makes the reader fail. */
  lemma {:induction false} CutFails(s: Bytes) returns (k: nat)
    requires !Clear(s)
    ensures k <= |s| && Run(s[..k], [s[k..]]) == Err(LineTooLong)
    decreases |s|, 1
  {
    hide SizeOf, TakeLine, LineEnd, RunChunk, RunTrailers, ClearChunk, ClearTrailers;
    if LineEnd(s) == Some(SIZE_LINE_CEILING) {
      CutBeforeFeed(s, SIZE_LINE_CEILING);
      k := SIZE_LINE_CEILING + 1;
    } else {
      var i := LineEnd(s).value;
      var n := SizeOf(s[..i]).value;
      if n == 0 {
        k := CutFailsTrailers(s[i + 2..], 0);
      } else {
        k := CutFailsChunk(n, s[i + 2..]);
      }
      k := k + i + 2;
      TakeWhole(s, SIZE_LINE_CEILING, k);
    }
  }

  lemma {:induction false} CutFailsChunk(n: nat, s: Bytes) returns (k: nat)
    requires n > 0 && !ClearChunk(n, s)
    ensures k <= |s| && RunChunk(n, s[..k], [s[k..]]) == Err(LineTooLong)
    decreases |s|, 0
  {
    k := CutFails(s[n + 2..]);
    k := k + n + 2;
    hide Run, Clear;
    var a, b := s[..k], [s[k..]];
    assert a[n..][0] == CR && a[n..][1] == LF;
    assert a[n..][2..] == s[n + 2..][..k - n - 2] && s[k..] == s[n + 2..][k - n - 2..];
    assert RunDelimiter(a[..n], a[n..], b) == Prepend(a[..n], Run(a[n..][2..], b));
  }

  lemma {:induction false} CutFailsTrailers(s: Bytes, before: nat) returns (k: nat)
    requires !ClearTrailers(s, before)
    ensures k <= |s| && RunTrailers(s[..k], [s[k..]], before) == Err(LineTooLong)
    decreases |s|
  {
    hide TakeLine, TrailerOk, LineEnd;
    if LineEnd(s) == Some(TRAILER_LINE_CEILING) {
      CutBeforeFeed(s, TRAILER_LINE_CEILING);
      k := TRAILER_LINE_CEILING + 1;
    } else {
      var i := LineEnd(s).value;
      k := CutFailsTrailers(s[i + 2..], before + |s[..i]| + 2);
      k := k + i + 2;
      TakeWhole(s, TRAILER_LINE_CEILING, k);
    }
  }

  /** However the socket splits the stream the outcome is the same, exactly for the streams where
      no line read is as long as its ceiling, or which have too long a line anyway. */
  lemma SplitIndependentIff(s: Bytes)
    ensures (forall remainder, incoming :: Ahead(remainder, incoming) == s ==> Run(remainder, incoming) == Decode(s))
       <==> (Clear(s) || Decode(s) == Err(LineTooLong))
  {
    hide Run, Decode, Clear;
    if Clear(s) || Decode(s) == Err(LineTooLong) {
      forall remainder, incoming | Ahead(remainder, incoming) == s ensures Run(remainder, incoming) == Decode(s) {
        RunSplit(remainder, incoming);
      }
    } else {
      var k := CutFails(s);
      AheadCut(s, k);
      assert Run(s[..k], [s[k..]]) != Decode(s);
    }
  }

  // ---- Size lines and trailers by the grammar ----

  const LOWER_DIGITS: string := "0123456789abcdef"
  const UPPER_DIGITS: string := "0123456789ABCDEF"

  /** The byte writes this hexadecimal digit. */
  ghost predicate WritesDigit(b: byte, digit: nat)
    requires digit < 16
  {
    b as int == LOWER_DIGITS[digit] as int || b as int == UPPER_DIGITS[digit] as int
  }

  /** The digits write `n`, by division and remainder, in either case and with any leading zeros. */
  ghost predicate Writes(digits: Bytes, n: nat)
    decreases |digits|
  {
    && digits != [] && WritesDigit(digits[|digits| - 1], n % 16)
    && if |digits| == 1 then n < 16 else Writes(digits[..|digits| - 1], n / 16)
  }

  /** A size line: the digits of a size, and maybe extensions after a semicolon. */
  ghost predicate Announces(line: Bytes, n: nat) {
    exists digits, extensions ::
      line == digits + extensions && Writes(digits, n) && (extensions == [] || extensions[0] == ';' as int as byte)
  }

  /** The digits of a size, most significant first. */
  function HexText(n: nat, upper: bool): (r: Bytes)
    ensures r != []
  {
    var digit := [(if upper then UPPER_DIGITS[n % 16] else LOWER_DIGITS[n % 16]) as int as byte];
    if n < 16 then digit else HexText(n / 16, upper) + digit
  }

  lemma {:induction false} HexTextWrites(n: nat, upper: bool)
    ensures Writes(HexText(n, upper), n)
    decreases n
  {
    var r := HexText(n, upper);
    if n >= 16 {
      HexTextWrites(n / 16, upper);
      assert r[..|r| - 1] == HexText(n / 16, upper);
    }
  }

  lemma DigitIs(b: byte, digit: nat)
    requires digit < 16
    ensures WritesDigit(b, digit) <==> HexDigit(b) == Some(digit)
  {
  }

  /** What the code reads off digits is what they write. */
  lemma {:induction false} WritesIff(digits: Bytes, n: nat)
    requires digits != []
    ensures Writes(digits, n) <==> HexValue(digits) == Some(n)
    decreases |digits|
  {
    hide HexDigit, WritesDigit;
    var front, last := digits[..|digits| - 1], digits[|digits| - 1];
    DigitIs(last, n % 16);
    DigitAtMost(last);
    if |digits| == 1 {
      assert HexValue(front) == Some(0);
    } else {
      WritesIff(front, n / 16);
      if HexValue(front).Some? && HexDigit(last).Some? {
        var h, d := HexValue(front).value, HexDigit(last).value;
        DivUnique(h * 16 + d, 16, h);
        assert (h * 16 + d) % 16 == d;
      }
    }
  }

  lemma DigitAtMost(b: byte)
    ensures HexDigit(b).Some? ==> HexDigit(b).value < 16
    ensures HexDigit(';' as int as byte).None?
  {
  }

  lemma {:induction false} DigitsOnly(digits: Bytes, n: nat)
    requires Writes(digits, n)
    ensures ';' as int as byte !in digits
    decreases |digits|
  {
    DigitIs(digits[|digits| - 1], n % 16);
    if |digits| > 1 { DigitsOnly(digits[..|digits| - 1], n / 16); }
  }

  lemma {:induction false} BeforeIs(a: Bytes, rest: Bytes, b: byte)
    requires b !in a && (rest == [] || rest[0] == b)
    ensures Before(a + rest, b) == a
  {
    if a == [] {
      assert a + rest == rest;
    } else {
      assert a[0] in a;
      assert (a + rest)[1..] == a[1..] + rest;
      BeforeIs(a[1..], rest, b);
    }
  }

  lemma {:induction false} BeforeCuts(s: Bytes, b: byte)
    ensures var a := Before(s, b); b !in a && |a| <= |s| && s[..|a|] == a && (|a| < |s| ==> s[|a|] == b)
  {
    if s != [] && s[0] != b { BeforeCuts(s[1..], b); }
  }

  /** The code reads a size off exactly the lines that announce one, where it is a safe integer. */
  lemma SizeOfIff(line: Bytes, n: nat)
    ensures SizeOf(line) == Some(n) <==> Announces(line, n) && n <= 9007199254740991
  {
    hide Writes, HexValue;
    var semicolon := ';' as int as byte;
    var token := Before(line, semicolon);
    if SizeOf(line) == Some(n) {
      BeforeCuts(line, semicolon);
      WritesIff(token, n);
      assert line == token + line[|token|..];
    }
    if Announces(line, n) {
      var digits, extensions :| line == digits + extensions && Writes(digits, n) && (extensions == [] || extensions[0] == semicolon);
      DigitsOnly(digits, n);
      BeforeIs(digits, extensions, semicolon);
      NotEmpty(digits, n);
      WritesIff(digits, n);
    }
  }

  lemma NotEmpty(digits: Bytes, n: nat)
    requires Writes(digits, n)
    ensures digits != []
  {
  }

  /** Any way of writing a size is read back. */
  lemma SizeReadsBack(n: nat, upper: bool, zeros: nat, extensions: Bytes)
    requires n <= 9007199254740991 && (extensions == [] || extensions[0] == ';' as int as byte)
    ensures SizeOf(Zeros(zeros) + HexText(n, upper) + extensions) == Some(n)
  {
    HexTextWrites(n, upper);
    ZerosWrite(zeros, HexText(n, upper), n);
    SizeOfIff(Zeros(zeros) + HexText(n, upper) + extensions, n);
  }

  function Zeros(n: nat): Bytes {
    seq(n, i => '0' as int as byte)
  }

  lemma {:induction false} ZerosWrite(zeros: nat, digits: Bytes, n: nat)
    requires Writes(digits, n)
    ensures Writes(Zeros(zeros) + digits, n)
    decreases |digits|
  {
    var all := Zeros(zeros) + digits;
    assert all[..|all| - 1] == Zeros(zeros) + digits[..|digits| - 1];
    if |digits| > 1 {
      ZerosWrite(zeros, digits[..|digits| - 1], n / 16);
    } else if zeros > 0 {
      OnlyZeros(zeros);
      assert all[..|all| - 1] == Zeros(zeros);
    }
  }

  lemma {:induction false} OnlyZeros(zeros: nat)
    requires zeros > 0
    ensures Writes(Zeros(zeros), 0)
  {
    if zeros > 1 {
      assert Zeros(zeros)[..zeros - 1] == Zeros(zeros - 1);
      OnlyZeros(zeros - 1);
    }
  }

  const TOKEN_SIGNS: string := "!#$%&'*+-.^_`|~"

  /** The characters of a field name, by section 5.6.2 of RFC 9110. */
  ghost predicate TokenCharacter(b: byte) {
    || '0' as int <= b as int <= '9' as int || 'a' as int <= b as int <= 'z' as int || 'A' as int <= b as int <= 'Z' as int
    || exists i :: 0 <= i < |TOKEN_SIGNS| && TOKEN_SIGNS[i] as int == b as int
  }

  lemma TokenByteIff(b: byte)
    ensures TokenByte(b) <==> TokenCharacter(b)
  {
    var signs: seq<byte> := [33, 35, 36, 37, 38, 39, 42, 43, 45, 46, 94, 95, 96, 124, 126];
    assert forall i :: 0 <= i < 15 ==> TOKEN_SIGNS[i] as int == signs[i] as int;
    if b in signs {
      var i :| 0 <= i < 15 && signs[i] == b;
      assert TOKEN_SIGNS[i] as int == b as int;
    }
  }

  ghost predicate PrintableText(value: Bytes) {
    forall i :: 0 <= i < |value| ==> value[i] as int == '\t' as int || ' ' as int <= value[i] as int <= '~' as int
  }

  /** The bytes are this text, letters in either case. */
  ghost predicate Spells(name: Bytes, text: string) {
    && |name| == |text|
    && forall i :: 0 <= i < |text| ==>
         name[i] as int == text[i] as int || ('A' as int <= name[i] as int <= 'Z' as int && name[i] as int + 32 == text[i] as int)
  }

  ghost predicate FramingName(name: Bytes) {
    Spells(name, "content-length") || Spells(name, "transfer-encoding") || Spells(name, "host") || Spells(name, "trailer")
  }

  lemma SpellsIff(name: Bytes, text: string)
    requires forall i :: 0 <= i < |text| ==> 'a' <= text[i] <= 'z' || text[i] == '-'
    ensures Spells(name, text) <==> Lower(name) == Ascii(text)
  {
    if Spells(name, text) {
      forall i | 0 <= i < |text| ensures Lower(name)[i] == Ascii(text)[i] {
      }
      assert |Lower(name)| == |Ascii(text)|;
    }
    if Lower(name) == Ascii(text) {
      forall i | 0 <= i < |text|
        ensures name[i] as int == text[i] as int || ('A' as int <= name[i] as int <= 'Z' as int && name[i] as int + 32 == text[i] as int)
      {
        assert Lower(name)[i] == Ascii(text)[i];
      }
    }
  }

  lemma ForbiddenIff(name: Bytes)
    ensures ForbiddenTrailer(name) <==> FramingName(name)
  {
    hide Lower, Ascii, Spells;
    SpellsIff(name, "content-length");
    SpellsIff(name, "transfer-encoding");
    SpellsIff(name, "host");
    SpellsIff(name, "trailer");
  }

  ghost predicate FieldName(name: Bytes) {
    name != [] && !FramingName(name) && forall i :: 0 <= i < |name| ==> TokenCharacter(name[i])
  }

  /** A trailer line: a field name that is not a framing one, a colon, and printable text. */
  ghost predicate GoodTrailer(line: Bytes) {
    exists name, value :: line == name + [':' as int as byte] + value && FieldName(name) && PrintableText(value)
  }

  lemma TrailerOkIff(line: Bytes)
    ensures TrailerOk(line) <==> GoodTrailer(line)
  {
    hide TrailerOk, FieldName, PrintableText;
    if TrailerOk(line) {
      TrailerParts(line);
    }
    if GoodTrailer(line) {
      var name, value :| line == name + [':' as int as byte] + value && FieldName(name) && PrintableText(value);
      TrailerOfParts(name, value);
    }
  }

  lemma TrailerParts(line: Bytes)
    requires TrailerOk(line)
    ensures GoodTrailer(line)
  {
    hide TokenByte, TokenCharacter, ForbiddenTrailer, FramingName;
    var colon := ':' as int as byte;
    var name := Before(line, colon);
    BeforeCuts(line, colon);
    ForbiddenIff(name);
    forall i | 0 <= i < |name| ensures TokenCharacter(name[i]) {
      TokenByteIff(name[i]);
    }
    var value := line[|name| + 1..];
    forall i | 0 <= i < |value| ensures value[i] as int == '\t' as int || ' ' as int <= value[i] as int <= '~' as int {
      assert value[i] == line[|name| + 1 + i] && FieldByte(line[|name| + 1 + i]);
    }
    assert FieldName(name) && PrintableText(value);
    assert line[|name|] == colon && line == name + [colon] + value;
  }

  lemma TrailerOfParts(name: Bytes, value: Bytes)
    requires FieldName(name) && PrintableText(value)
    ensures TrailerOk(name + [':' as int as byte] + value)
  {
    hide TokenByte, TokenCharacter, ForbiddenTrailer, FramingName;
    var colon := ':' as int as byte;
    var line := name + [colon] + value;
    ColonIsNoToken(name);
    ForbiddenIff(name);
    BeforeIs(name, [colon] + value, colon);
    assert line == name + ([colon] + value);
    forall i | 0 <= i < |name| ensures TokenByte(name[i]) {
      TokenByteIff(name[i]);
    }
    forall i | |name| < i < |line| ensures FieldByte(line[i]) {
      assert line[i] == value[i - |name| - 1];
    }
  }

  lemma ColonIsNoToken(name: Bytes)
    requires forall i :: 0 <= i < |name| ==> TokenCharacter(name[i])
    ensures ':' as int as byte !in name
  {
    hide TokenCharacter;
    forall i | 0 <= i < |name| ensures name[i] != ':' as int as byte {
      TokenByteIff(name[i]);
    }
  }

  // ---- Well-formed streams ----

  datatype Chunk = Chunk(sizeLine: Bytes, data: Bytes)

  /** A line of at most this many bytes. */
  ghost predicate GoodLine(line: Bytes, most: nat) {
    |line| <= most && forall j: nat :: !BreakAt(line, j)
  }

  ghost predicate GoodChunk(c: Chunk) {
    c.data != [] && |c.data| <= 9007199254740991 && GoodLine(c.sizeLine, 4096) && Announces(c.sizeLine, |c.data|)
  }

  function EncodeChunks(chunks: seq<Chunk>): Bytes {
    if chunks == [] then [] else chunks[0].sizeLine + [CR, LF] + chunks[0].data + [CR, LF] + EncodeChunks(chunks[1..])
  }

  function EncodeLines(lines: seq<Bytes>): Bytes {
    if lines == [] then [] else lines[0] + [CR, LF] + EncodeLines(lines[1..])
  }

  function ChunkData(chunks: seq<Chunk>): Bytes {
    if chunks == [] then [] else chunks[0].data + ChunkData(chunks[1..])
  }

  ghost predicate GoodTrailers(trailers: seq<Bytes>, before: nat) {
    && before + |EncodeLines(trailers)| + 2 <= 32768
    && forall i :: 0 <= i < |trailers| ==> GoodLine(trailers[i], 8192) && GoodTrailer(trailers[i])
  }

  /** A well-formed stream: its chunks, a last size line announcing zero, its trailers, a blank
      line; what follows is not read. */
  function EncodeStream(chunks: seq<Chunk>, last: Bytes, trailers: seq<Bytes>, extra: Bytes): Bytes {
    EncodeChunks(chunks) + (last + [CR, LF] + (EncodeLines(trailers) + [CR, LF] + extra))
  }

  ghost predicate WellFormed(chunks: seq<Chunk>, last: Bytes, trailers: seq<Bytes>) {
    && (forall i :: 0 <= i < |chunks| ==> GoodChunk(chunks[i]))
    && GoodLine(last, 4096) && Announces(last, 0) && GoodTrailers(trailers, 0)
  }

  /** Every size line is shorter than 4096 bytes and every trailer line than 8192. */
  ghost predicate ShortLines(chunks: seq<Chunk>, last: Bytes, trailers: seq<Bytes>) {
    && (forall i :: 0 <= i < |chunks| ==> |chunks[i].sizeLine| < 4096)
    && |last| < 4096 && ShortTrailers(trailers)
  }

  ghost predicate ShortTrailers(trailers: seq<Bytes>) {
    forall i :: 0 <= i < |trailers| ==> |trailers[i]| < 8192
  }

  lemma LineEnds(line: Bytes, most: nat, rest: Bytes)
    requires GoodLine(line, most)
    ensures NextLine(line + [CR, LF] + rest, most) == Line(line, rest)
    ensures LineEnd(line + [CR, LF] + rest) == Some(|line|)
  {
    var s := line + [CR, LF] + rest;
    assert forall j: nat :: j + 1 < |line| ==> (BreakAt(s, j) <==> BreakAt(line, j));
    LineEndIs(s, |line|);
    assert s[..|line|] == line && s[|line| + 2..] == rest;
  }

  /** ... and every line found is such a line. */
  lemma LineFound(s: Bytes, most: nat)
    requires NextLine(s, most).Line?
    ensures var l := NextLine(s, most); GoodLine(l.text, most) && s == l.text + [CR, LF] + l.rest
  {
    var i := LineEnd(s).value;
    assert forall j: nat :: j + 1 < i ==> (BreakAt(s[..i], j) <==> BreakAt(s, j));
    assert s == s[..i] + [s[i], s[i + 1]] + s[i + 2..];
  }

  lemma {:induction false} TrailersDecode(trailers: seq<Bytes>, before: nat, extra: Bytes)
    requires GoodTrailers(trailers, before)
    ensures DecodeTrailers(EncodeLines(trailers) + [CR, LF] + extra, before) == Ok([])
    ensures ShortTrailers(trailers) ==> ClearTrailers(EncodeLines(trailers) + [CR, LF] + extra, before)
    decreases |trailers|
  {
    hide TrailerOk, GoodTrailer, NextLine, LineEnd;
    var s := EncodeLines(trailers) + [CR, LF] + extra;
    if trailers == [] {
      LineEnds([], TRAILER_LINE_CEILING, extra);
      assert s == [] + [CR, LF] + extra;
    } else {
      var rest := EncodeLines(trailers[1..]) + [CR, LF] + extra;
      LineEnds(trailers[0], TRAILER_LINE_CEILING, rest);
      TrailerOkIff(trailers[0]);
      TrailerFilled(trailers[0]);
      assert s == trailers[0] + [CR, LF] + rest;
      assert forall i :: 0 <= i < |trailers[1..]| ==> trailers[1..][i] == trailers[i + 1];
      TrailersDecode(trailers[1..], before + |trailers[0]| + 2, extra);
    }
  }

  lemma TrailerFilled(line: Bytes)
    requires GoodTrailer(line)
    ensures line != []
  {
  }

  /** A well-formed stream means its concatenated chunk data, and with short lines none of them is as
      long as its ceiling. */
  lemma {:induction false} StreamDecodes(chunks: seq<Chunk>, last: Bytes, trailers: seq<Bytes>, extra: Bytes)
    requires WellFormed(chunks, last, trailers)
    ensures Decode(EncodeStream(chunks, last, trailers, extra)) == Ok(ChunkData(chunks))
    ensures ShortLines(chunks, last, trailers) ==> Clear(EncodeStream(chunks, last, trailers, extra))
    decreases |chunks|
  {
    hide NextLine, LineEnd, SizeOf, GoodTrailers, DecodeTrailers, ClearTrailers, Announces, ShortTrailers;
    var s := EncodeStream(chunks, last, trailers, extra);
    if chunks == [] {
      var rest := EncodeLines(trailers) + [CR, LF] + extra;
      assert s == last + [CR, LF] + rest;
      LineEnds(last, SIZE_LINE_CEILING, rest);
      SizeOfIff(last, 0);
      TrailersDecode(trailers, 0, extra);
    } else {
      var c, tail := chunks[0], EncodeStream(chunks[1..], last, trailers, extra);
      var rest := c.data + [CR, LF] + tail;
      assert GoodChunk(c);
      assert s == c.sizeLine + [CR, LF] + rest;
      LineEnds(c.sizeLine, SIZE_LINE_CEILING, rest);
      SizeOfIff(c.sizeLine, |c.data|);
      assert forall i :: 0 <= i < |chunks[1..]| ==> chunks[1..][i] == chunks[i + 1];
      StreamDecodes(chunks[1..], last, trailers, extra);
      hide Decode, Clear;
      ChunkDecodes(c.data, tail);
    }
  }

  lemma ChunkDecodes(data: Bytes, tail: Bytes)
    ensures DecodeChunk(|data|, data + [CR, LF] + tail) == Prepend(data, Decode(tail))
    ensures ClearChunk(|data|, data + [CR, LF] + tail) == Clear(tail)
  {
    hide Decode, Clear;
    var s := data + [CR, LF] + tail;
    assert s[..|data|] == data && s[|data| + 2..] == tail;
    assert s[|data|] == CR && s[|data| + 1] == LF;
  }

  // ---- ... and nothing else is accepted ----

  lemma {:induction false} TrailersParse(s: Bytes, before: nat) returns (trailers: seq<Bytes>, extra: Bytes)
    requires DecodeTrailers(s, before).Ok?
    ensures GoodTrailers(trailers, before) && s == EncodeLines(trailers) + [CR, LF] + extra && DecodeTrailers(s, before) == Ok([])
    decreases |s|
  {
    hide TrailerOk, GoodTrailer, NextLine, LineEnd;
    var l := NextLine(s, TRAILER_LINE_CEILING);
    LineFound(s, TRAILER_LINE_CEILING);
    if l.text == [] {
      trailers, extra := [], l.rest;
    } else {
      var more;
      more, extra := TrailersParse(l.rest, before + |l.text| + 2);
      TrailerOkIff(l.text);
      trailers := [l.text] + more;
      assert trailers[1..] == more;
      assert s == l.text + [CR, LF] + (EncodeLines(more) + [CR, LF] + extra);
    }
  }

  /** A stream that is accepted is well-formed, and what it yields is its chunk data. */
  lemma {:induction false} StreamParses(s: Bytes) returns (chunks: seq<Chunk>, last: Bytes, trailers: seq<Bytes>, extra: Bytes)
    requires Decode(s).Ok?
    ensures WellFormed(chunks, last, trailers) && s == EncodeStream(chunks, last, trailers, extra) && Decode(s) == Ok(ChunkData(chunks))
    decreases |s|
  {
    hide NextLine, LineEnd, SizeOf, GoodTrailers, DecodeTrailers, Announces;
    var l := NextLine(s, SIZE_LINE_CEILING);
    LineFound(s, SIZE_LINE_CEILING);
    var n := SizeOf(l.text).value;
    SizeOfIff(l.text, n);
    if n == 0 {
      chunks, last := [], l.text;
      trailers, extra := TrailersParse(l.rest, 0);
      assert s == [] + (last + [CR, LF] + (EncodeLines(trailers) + [CR, LF] + extra));
    } else {
      var data, tail := l.rest[..n], l.rest[n + 2..];
      var more;
      more, last, trailers, extra := StreamParses(tail);
      chunks := [Chunk(l.text, data)] + more;
      assert chunks[1..] == more;
      assert l.rest == data + [CR, LF] + tail;
      assert s == l.text + [CR, LF] + data + [CR, LF] + (EncodeChunks(more) + (last + [CR, LF] + (EncodeLines(trailers) + [CR, LF] + extra)));
    }
  }

  /** Exactly the well-formed streams are accepted. */
  lemma DecodesIff(s: Bytes, data: Bytes)
    ensures Decode(s) == Ok(data) <==>
      exists chunks, last, trailers, extra ::
        WellFormed(chunks, last, trailers) && s == EncodeStream(chunks, last, trailers, extra) && data == ChunkData(chunks)
  {
    hide Decode, WellFormed, EncodeStream;
    if Decode(s) == Ok(data) {
      var chunks, last, trailers, extra := StreamParses(s);
    }
    forall chunks, last, trailers, extra | WellFormed(chunks, last, trailers) && s == EncodeStream(chunks, last, trailers, extra)
      ensures Decode(s) == Ok(ChunkData(chunks))
    {
      StreamDecodes(chunks, last, trailers, extra);
    }
  }

  /** Every well-formed stream with short lines decodes to its chunk data, however it is read. */
  lemma ChunkedAnyReads(remainder: Bytes, incoming: seq<Bytes>, chunks: seq<Chunk>, last: Bytes, trailers: seq<Bytes>, extra: Bytes)
    requires WellFormed(chunks, last, trailers) && ShortLines(chunks, last, trailers)
    requires Ahead(remainder, incoming) == EncodeStream(chunks, last, trailers, extra)
    ensures Run(remainder, incoming) == Ok(ChunkData(chunks))
  {
    hide Run, Decode, Clear, EncodeStream;
    StreamDecodes(chunks, last, trailers, extra);
    RunSplit(remainder, incoming);
  }

  // ---- Length framing ----

  /** With a declared length, exactly that prefix. */
  function DecodeLength(length: nat, s: Bytes): Outcome {
    if |s| < length then Err(PrematureEnd) else Ok(s[..length])
  }

  /** The reader's state: bytes held, reads to come, and where the framing stands. */
  datatype Framing = Length(left: nat) | Chunked(chunkRemaining: nat, chunkDone: bool)

  /** What pulling to the end will give. */
  function Outlook(framing: Framing, remainder: Bytes, incoming: seq<Bytes>): Outcome {
    match framing
    case Length(left) => DecodeLength(left, Ahead(remainder, incoming))
    case Chunked(n, done) => if done then Ok([]) else if n == 0 then Run(remainder, incoming) else RunChunk(n, remainder, incoming)
  }
}
