/** The two orders on entry names.

    The writer and the manifest decoder compare names by their UTF-8 bytes, while the reader
    compares fan-out bounds as script strings, that is, by UTF-16 code units.  Both are
    lexicographic orders; this module relates them through the order on code points.
 */
module NameOrder {

  type Name = string

  /** Lexicographic "at most" on sequences of code units. */
  predicate LexLe(a: seq<int>, b: seq<int>) {
    a == [] || (b != [] && (a[0] < b[0] || (a[0] == b[0] && LexLe(a[1..], b[1..]))))
  }

  /** The UTF-8 bytes of one scalar value. */
  function CharUtf8(ch: char): (r: seq<int>)
    ensures |r| > 0
  {
    var x := ch as int;
    if x < 0x80 then [x]
    else if x < 0x800 then [0xC0 + x / 64, 0x80 + x % 64]
    else if x < 0x10000 then [0xE0 + x / 4096, 0x80 + x / 64 % 64, 0x80 + x % 64]
    else [0xF0 + x / 262144, 0x80 + x / 4096 % 64, 0x80 + x / 64 % 64, 0x80 + x % 64]
  }

  /** The UTF-16 code units of one scalar value. */
  function CharUtf16(ch: char): (r: seq<int>)
    ensures |r| > 0
  {
    var x := ch as int;
    if x < 0x10000 then [x]
    else [0xD800 + (x - 0x10000) / 1024, 0xDC00 + (x - 0x10000) % 1024]
  }

  function Utf8(n: Name): seq<int> {
    if n == "" then [] else CharUtf8(n[0]) + Utf8(n[1..])
  }

  function Utf16(n: Name): seq<int> {
    if n == "" then [] else CharUtf16(n[0]) + Utf16(n[1..])
  }

  /** Lexicographic order on code points, the common reference of the two orders. */
  predicate CodeLe(a: Name, b: Name) {
    a == "" || (b != "" && (a[0] < b[0] || (a[0] == b[0] && CodeLe(a[1..], b[1..]))))
  }

  /** The writer's and decoder's order: `compareUtf8`, `byteCompare`, `ORDER BY CAST(name AS BLOB)`. */
  predicate ByteLe(a: Name, b: Name) {
    LexLe(Utf8(a), Utf8(b))
  }

  predicate ByteLess(a: Name, b: Name) {
    a != b && ByteLe(a, b)
  }

  /** The reader's order: `<=` on script strings. */
  predicate ScriptLe(a: Name, b: Name) {
    LexLe(Utf16(a), Utf16(b))
  }

  /** Names without supplementary code points; every ASCII name is one. */
  predicate Basic(n: Name) {
    forall i :: 0 <= i < |n| ==> (n[i] as int) < 0x10000
  }

  lemma {:induction false} LexCommonPrefix(p: seq<int>, a: seq<int>, b: seq<int>)
    ensures LexLe(p + a, p + b) <==> LexLe(a, b)
  {
    if p == [] {
      assert p + a == a && p + b == b;
    } else {
      LexCommonPrefix(p[1..], a, b);
      assert (p + a)[1..] == p[1..] + a && (p + b)[1..] == p[1..] + b;
    }
  }

  /** The first position where two words differ decides their order. */
  ghost predicate Decides(u: seq<int>, v: seq<int>, k: nat) {
    k < |u| && k < |v| && u[..k] == v[..k] && u[k] < v[k]
  }

  /** A code decided before either word ends decides the order of all extensions. */
  lemma {:induction false} LexDecided(u: seq<int>, v: seq<int>, k: nat, a: seq<int>, b: seq<int>)
    requires Decides(u, v, k)
    ensures LexLe(u + a, v + b) && !LexLe(v + b, u + a)
  {
    assert u + a == u[..k] + (u[k..] + a);
    assert v + b == u[..k] + (v[k..] + b);
    LexCommonPrefix(u[..k], u[k..] + a, v[k..] + b);
    LexCommonPrefix(u[..k], v[k..] + b, u[k..] + a);
  }

  lemma DigitOrder(x: nat, y: nat)
    requires x < y
    ensures x / 64 < y / 64 || (x / 64 == y / 64 && x % 64 < y % 64)
  {
  }

  lemma ShiftTwice(x: nat)
    ensures x / 4096 == x / 64 / 64 && x / 262144 == x / 4096 / 64
  {
  }

  lemma TwoBytes(x: char, y: char) returns (k: nat)
    requires 0x80 <= x as int < y as int < 0x800
    ensures Decides(CharUtf8(x), CharUtf8(y), k)
  {
    DigitOrder(x as int, y as int);
    k := if x as int / 64 == y as int / 64 then 1 else 0;
  }

  lemma ThreeBytes(x: char, y: char) returns (k: nat)
    requires 0x800 <= x as int < y as int < 0x10000
    ensures Decides(CharUtf8(x), CharUtf8(y), k)
  {
    var a, b := x as int, y as int;
    ShiftTwice(a);
    ShiftTwice(b);
    DigitOrder(a, b);
    if a / 64 == b / 64 {
      k := 2;
    } else {
      DigitOrder(a / 64, b / 64);
      k := if a / 4096 == b / 4096 then 1 else 0;
    }
  }

  lemma FourBytes(x: char, y: char) returns (k: nat)
    requires 0x10000 <= x as int < y as int
    ensures Decides(CharUtf8(x), CharUtf8(y), k)
  {
    var a, b := x as int, y as int;
    ShiftTwice(a);
    ShiftTwice(b);
    DigitOrder(a, b);
    if a / 64 == b / 64 {
      k := 3;
    } else {
      DigitOrder(a / 64, b / 64);
      if a / 4096 == b / 4096 {
        k := 2;
      } else {
        DigitOrder(a / 4096, b / 4096);
        k := if a / 262144 == b / 262144 then 1 else 0;
      }
    }
  }

  /** UTF-8 is an order-preserving prefix code: equal-length codes differ first at the most
      significant differing base-64 digit, longer codes have larger lead bytes. */
  lemma CharUtf8Ordered(x: char, y: char) returns (k: nat)
    requires x < y
    ensures Decides(CharUtf8(x), CharUtf8(y), k)
  {
    var a, b := x as int, y as int;
    if 0x80 <= a && b < 0x800 {
      k := TwoBytes(x, y);
    } else if 0x800 <= a && b < 0x10000 {
      k := ThreeBytes(x, y);
    } else if 0x10000 <= a {
      k := FourBytes(x, y);
    } else {
      k := 0;
    }
  }

  /** The byte order of UTF-8 is the code point order. */
  lemma {:induction false} ByteOrderIsCodeOrder(a: Name, b: Name)
    ensures ByteLe(a, b) <==> CodeLe(a, b)
  {
    if a == "" || b == "" {
    } else if a[0] == b[0] {
      LexCommonPrefix(CharUtf8(a[0]), Utf8(a[1..]), Utf8(b[1..]));
      ByteOrderIsCodeOrder(a[1..], b[1..]);
    } else if a[0] < b[0] {
      var k := CharUtf8Ordered(a[0], b[0]);
      LexDecided(CharUtf8(a[0]), CharUtf8(b[0]), k, Utf8(a[1..]), Utf8(b[1..]));
    } else {
      var k := CharUtf8Ordered(b[0], a[0]);
      LexDecided(CharUtf8(b[0]), CharUtf8(a[0]), k, Utf8(b[1..]), Utf8(a[1..]));
    }
  }

  /** On names without supplementary code points the reader's order is the writer's. */
  lemma {:induction false} ScriptOrderOnBasic(a: Name, b: Name)
    requires Basic(a) && Basic(b)
    ensures ScriptLe(a, b) <==> ByteLe(a, b)
  {
    ByteOrderIsCodeOrder(a, b);
    ScriptIsCodeOnBasic(a, b);
  }

  lemma {:induction false} ScriptIsCodeOnBasic(a: Name, b: Name)
    requires Basic(a) && Basic(b)
    ensures ScriptLe(a, b) <==> CodeLe(a, b)
  {
    if a != "" && b != "" {
      assert Utf16(a)[1..] == Utf16(a[1..]) && Utf16(b)[1..] == Utf16(b[1..]);
      ScriptIsCodeOnBasic(a[1..], b[1..]);
    }
  }

  lemma {:induction false} CodeReflexive(a: Name)
    ensures CodeLe(a, a)
  {
    if a != "" { CodeReflexive(a[1..]); }
  }

  lemma {:induction false} CodeTotal(a: Name, b: Name)
    ensures CodeLe(a, b) || CodeLe(b, a)
    ensures CodeLe(a, b) && CodeLe(b, a) ==> a == b
  {
    if a != "" && b != "" {
      CodeTotal(a[1..], b[1..]);
      assert a == [a[0]] + a[1..] && b == [b[0]] + b[1..];
    }
  }

  lemma {:induction false} CodeTransitive(a: Name, b: Name, c: Name)
    requires CodeLe(a, b) && CodeLe(b, c)
    ensures CodeLe(a, c)
  {
    if a != "" && a[0] == b[0] && b[0] == c[0] {
      CodeTransitive(a[1..], b[1..], c[1..]);
    }
  }

  /** `ByteLe` is a total order on names. */
  lemma ByteTotal(a: Name, b: Name)
    ensures ByteLe(a, b) || ByteLe(b, a)
    ensures ByteLe(a, b) && ByteLe(b, a) ==> a == b
    ensures ByteLe(a, a)
  {
    ByteOrderIsCodeOrder(a, b);
    ByteOrderIsCodeOrder(b, a);
    ByteOrderIsCodeOrder(a, a);
    CodeTotal(a, b);
    CodeReflexive(a);
  }

  lemma ByteTransitive(a: Name, b: Name, c: Name)
    requires ByteLe(a, b) && ByteLe(b, c)
    ensures ByteLe(a, c)
    ensures ByteLess(a, b) || ByteLess(b, c) ==> ByteLess(a, c)
  {
    ByteOrderIsCodeOrder(a, b);
    ByteOrderIsCodeOrder(b, c);
    ByteOrderIsCodeOrder(a, c);
    CodeTransitive(a, b, c);
    ByteTotal(a, b);
    ByteTotal(b, c);
  }

  /** The orders differ beyond the basic plane: U+FF5E precedes U+10000 by UTF-8 bytes,
      and follows it by UTF-16 code units. */
  lemma OrdersDisagree()
    ensures ByteLess("\U{FF5E}", "\U{10000}")
    ensures !ScriptLe("\U{FF5E}", "\U{10000}") && ScriptLe("\U{10000}", "\U{FF5E}")
  {
    var a, b := "\U{FF5E}", "\U{10000}";
    assert a[1..] == "" && b[1..] == "";
    assert Utf8(a) == [0xEF, 0xBD, 0x9E] + Utf8("");
    assert Utf8(b) == [0xF0, 0x90, 0x80, 0x80] + Utf8("");
    assert Utf16(a) == [0xFF5E] + Utf16("");
    assert Utf16(b) == [0xD800, 0xDC00] + Utf16("");
  }

  /** Strictly increasing in the writer's order. */
  predicate Increasing(ns: seq<Name>) {
    forall i, j :: 0 <= i < j < |ns| ==> ByteLess(ns[i], ns[j])
  }

  lemma {:induction false} LeastExists(s: set<Name>) returns (m: Name)
    requires s != {}
    ensures m in s && forall n :: n in s ==> ByteLe(m, n)
  {
    m :| m in s;
    if s == {m} {
      ByteTotal(m, m);
    } else {
      var rest := LeastExists(s - {m});
      ByteTotal(m, rest);
      forall n | n in s ensures ByteLe(if ByteLe(m, rest) then m else rest, n) {
        ByteTotal(m, n);
        if ByteLe(m, rest) && n != m { ByteTransitive(m, rest, n); }
      }
      m := if ByteLe(m, rest) then m else rest;
    }
  }

  /** The names of a set in the writer's order. */
  ghost function SortNames(s: set<Name>): (r: seq<Name>)
    ensures Increasing(r)
    ensures forall n :: n in r <==> n in s
    ensures |r| == |s|
    decreases |s|
  {
    if s == {} then []
    else
      hide ByteLe;
      var m := Least(s);
      var rest := SortNames(s - {m});
      assert forall n :: n in rest ==> ByteLess(m, n);
      [m] + rest
  }

  ghost function Least(s: set<Name>): (m: Name)
    requires s != {}
    ensures m in s && forall n :: n in s ==> ByteLe(m, n)
  {
    LeastWitness(s);
    var m :| m in s && forall n :: n in s ==> ByteLe(m, n);
    m
  }

  lemma LeastWitness(s: set<Name>)
    requires s != {}
    ensures exists m :: m in s && forall n :: n in s ==> ByteLe(m, n)
  {
    var m := LeastExists(s);
  }

  lemma EmptyHasNone(a: seq<Name>)
    ensures a == [] <==> forall n :: n !in a
  {
    if a != [] { assert a[0] in a; }
  }

  /** An increasing sequence is determined by its elements. */
  lemma {:induction false} IncreasingUnique(a: seq<Name>, b: seq<Name>)
    requires Increasing(a) && Increasing(b)
    requires forall n :: n in a <==> n in b
    ensures a == b
  {
    EmptyHasNone(a);
    EmptyHasNone(b);
    if a != [] {
      assert a[0] in b && b[0] in a;
      ByteTotal(a[0], b[0]);
      forall n ensures n in a[1..] <==> n in b[1..] {
        if n in a[1..] { assert n in b; ByteTotal(n, n); }
        if n in b[1..] { assert n in a; ByteTotal(n, n); }
      }
      IncreasingUnique(a[1..], b[1..]);
      assert a == [a[0]] + a[1..] && b == [b[0]] + b[1..];
    }
  }

  // ---- Reading the encodings back ----

  /** The first scalar value of UTF-8 bytes, by section 3 of RFC 3629: the lead byte tells how many
      bytes there are, and each further byte holds six bits. */
  function HeadUtf8(s: seq<int>): (int, nat)
    requires s != []
  {
    if s[0] < 0xC0 then (s[0], 1)
    else if s[0] < 0xE0 && |s| > 1 then ((s[0] - 0xC0) * 64 + (s[1] - 0x80), 2)
    else if s[0] < 0xF0 && |s| > 2 then ((s[0] - 0xE0) * 4096 + (s[1] - 0x80) * 64 + (s[2] - 0x80), 3)
    else if |s| > 3 then ((s[0] - 0xF0) * 262144 + (s[1] - 0x80) * 4096 + (s[2] - 0x80) * 64 + (s[3] - 0x80), 4)
    else (s[0], 1)
  }

  /** The first scalar value of UTF-16 units: a high surrogate and the low one after it, or a unit. */
  function HeadUtf16(s: seq<int>): (int, nat)
    requires s != []
  {
    if 0xD800 <= s[0] < 0xDC00 && |s| > 1 then ((s[0] - 0xD800) * 1024 + (s[1] - 0xDC00) + 0x10000, 2) else (s[0], 1)
  }

  lemma HeadOfDigits(a: nat, b: nat, c: nat, d: nat, s: seq<int>)
    requires b < 64 && c < 64 && d < 64
    ensures c < 32 ==> HeadUtf8([0xC0 + c, 0x80 + d] + s) == (c * 64 + d, 2)
    ensures b < 16 ==> HeadUtf8([0xE0 + b, 0x80 + c, 0x80 + d] + s) == (b * 4096 + c * 64 + d, 3)
    ensures a < 8 ==> HeadUtf8([0xF0 + a, 0x80 + b, 0x80 + c, 0x80 + d] + s) == (a * 262144 + b * 4096 + c * 64 + d, 4)
  {
    var two, three, four := [0xC0 + c, 0x80 + d] + s, [0xE0 + b, 0x80 + c, 0x80 + d] + s, [0xF0 + a, 0x80 + b, 0x80 + c, 0x80 + d] + s;
    assert two[0] == 0xC0 + c && two[1] == 0x80 + d;
    assert three[0] == 0xE0 + b && three[1] == 0x80 + c && three[2] == 0x80 + d;
    assert four[0] == 0xF0 + a && four[1] == 0x80 + b && four[2] == 0x80 + c && four[3] == 0x80 + d;
  }

  lemma CharHeads(ch: char, s: seq<int>)
    ensures HeadUtf8(CharUtf8(ch) + s) == (ch as int, |CharUtf8(ch)|)
    ensures HeadUtf16(CharUtf16(ch) + s) == (ch as int, |CharUtf16(ch)|)
  {
    CharHeadUtf8(ch, s);
    var x := ch as int;
    var units := CharUtf16(ch) + s;
    assert units[0] == CharUtf16(ch)[0];
    if x >= 0x10000 {
      assert units[1] == CharUtf16(ch)[1];
    }
    hide HeadUtf8, CharUtf8;
  }

  lemma CharHeadUtf8(ch: char, s: seq<int>)
    ensures HeadUtf8(CharUtf8(ch) + s) == (ch as int, |CharUtf8(ch)|)
  {
    var x := ch as int;
    Base64Digits(x);
    ShiftTwice(x);
    if x < 0x80 {
      assert ([x] + s)[0] == x;
    } else if x < 0x800 {
      HeadOfDigits(0, 0, x / 64, x % 64, s);
    } else if x < 0x10000 {
      HeadOfDigits(0, x / 4096, x / 64 % 64, x % 64, s);
    } else {
      HeadOfDigits(x / 262144, x / 4096 % 64, x / 64 % 64, x % 64, s);
    }
  }

  lemma Base64Digits(x: nat)
    ensures x == x / 64 * 64 + x % 64
    ensures x == x / 4096 * 4096 + x / 64 % 64 * 64 + x % 64
    ensures x == x / 262144 * 262144 + x / 4096 % 64 * 4096 + x / 64 % 64 * 64 + x % 64
  {
    ShiftTwice(x);
    assert x / 64 == x / 64 / 64 * 64 + x / 64 % 64;
    assert x / 4096 == x / 4096 / 64 * 64 + x / 4096 % 64;
  }

  ghost predicate ReadsUtf8(s: seq<int>, n: Name)
    decreases |n|
  {
    if n == "" then s == []
    else s != [] && var (code, width) := HeadUtf8(s); code == n[0] as int && width <= |s| && ReadsUtf8(s[width..], n[1..])
  }

  ghost predicate ReadsUtf16(s: seq<int>, n: Name)
    decreases |n|
  {
    if n == "" then s == []
    else s != [] && var (code, width) := HeadUtf16(s); code == n[0] as int && width <= |s| && ReadsUtf16(s[width..], n[1..])
  }

  /** Both encodings read back as the name. */
  lemma {:induction false} EncodingsReadBack(n: Name)
    ensures ReadsUtf8(Utf8(n), n) && ReadsUtf16(Utf16(n), n)
  {
    hide CharUtf8, CharUtf16, HeadUtf8, HeadUtf16;
    if n != "" {
      CharHeads(n[0], Utf8(n[1..]));
      CharHeads(n[0], Utf16(n[1..]));
      EncodingsReadBack(n[1..]);
      assert Utf8(n)[|CharUtf8(n[0])|..] == Utf8(n[1..]);
      assert Utf16(n)[|CharUtf16(n[0])|..] == Utf16(n[1..]);
    }
  }
}
