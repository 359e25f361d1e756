/** Standard base64 with padding, and what the signature check accepts of it. */
module Base64Texts {
  import opened NarInfos

  /** The 64 characters, by section 4 of RFC 4648. */
  function Sign(v: nat): char
    requires v < 64
  {
    if v < 26 then 'A' + v as char
    else if v < 52 then 'a' + (v - 26) as char
    else if v < 62 then '0' + (v - 52) as char
    else if v == 62 then '+'
    else '/'
  }

  function SignValue(c: char): nat
    requires Base64Char(c)
    ensures SignValue(c) < 64
  {
    if 'A' <= c <= 'Z' then c as int - 'A' as int
    else if 'a' <= c <= 'z' then c as int - 'a' as int + 26
    else if '0' <= c <= '9' then c as int - '0' as int + 52
    else if c == '+' then 62
    else 63
  }

  predicate Octets(bytes: seq<nat>) {
    forall i :: 0 <= i < |bytes| ==> bytes[i] < 256
  }

  /** Three bytes are four characters of six bits; one or two bytes at the end are padded. */
  function Encode(bytes: seq<nat>): Text
    requires Octets(bytes)
    decreases |bytes|
  {
    if bytes == [] then ""
    else if |bytes| == 1 then [Sign(bytes[0] / 4), Sign(bytes[0] % 4 * 16), '=', '=']
    else if |bytes| == 2 then [Sign(bytes[0] / 4), Sign(bytes[0] % 4 * 16 + bytes[1] / 16), Sign(bytes[1] % 16 * 4), '=']
    else
      [Sign(bytes[0] / 4), Sign(bytes[0] % 4 * 16 + bytes[1] / 16), Sign(bytes[1] % 16 * 4 + bytes[2] / 64), Sign(bytes[2] % 64)]
      + Encode(bytes[3..])
  }

  lemma SignIs(v: nat)
    requires v < 64
    ensures Base64Char(Sign(v)) && SignValue(Sign(v)) == v
    ensures v % 16 == 0 <==> Sign(v) in "AQgw"
  {
  }

  lemma ValueIs(c: char)
    requires Base64Char(c)
    ensures Sign(SignValue(c)) == c
  {
  }

  /** Text of whole groups, ending in one byte. */
  ghost predicate Shape(s: Text, groups: nat) {
    && |s| == 4 * groups + 4 && s[4 * groups + 2] == '=' && s[4 * groups + 3] == '='
    && (forall i :: 0 <= i < 4 * groups + 2 ==> Base64Char(s[i])) && s[4 * groups + 1] in "AQgw"
  }

  lemma {:induction false} EncodedShape(bytes: seq<nat>, groups: nat)
    requires Octets(bytes) && |bytes| == 3 * groups + 1
    ensures Shape(Encode(bytes), groups)
    decreases groups
  {
    hide Sign;
    if groups == 0 {
      SignIs(bytes[0] / 4);
      SignIs(bytes[0] % 4 * 16);
    } else {
      EncodedShape(bytes[3..], groups - 1);
      SignIs(bytes[0] / 4);
      SignIs(bytes[0] % 4 * 16 + bytes[1] / 16);
      SignIs(bytes[1] % 16 * 4 + bytes[2] / 64);
      SignIs(bytes[2] % 64);
      ShapeMore(Encode(bytes)[..4], Encode(bytes[3..]), groups - 1);
      assert Encode(bytes) == Encode(bytes)[..4] + Encode(bytes[3..]);
    }
  }

  lemma ShapeMore(head: Text, s: Text, groups: nat)
    requires |head| == 4 && forall i :: 0 <= i < 4 ==> Base64Char(head[i])
    ensures Shape(head + s, groups + 1) <==> Shape(s, groups)
  {
    hide Base64Char;
    var all := head + s;
    if Shape(s, groups) {
      forall i | 0 <= i < 4 * groups + 6 ensures Base64Char(all[i]) {
        assert all[i] == if i < 4 then head[i] else s[i - 4];
      }
    }
    if Shape(all, groups + 1) {
      forall i | 0 <= i < 4 * groups + 2 ensures Base64Char(s[i]) {
        assert s[i] == all[i + 4];
      }
    }
  }

  lemma GroupBack(v0: nat, v1: nat, v2: nat, v3: nat)
    requires v0 < 64 && v1 < 64 && v2 < 64 && v3 < 64
    ensures var b0, b1, b2 := v0 * 4 + v1 / 16, v1 % 16 * 16 + v2 / 4, v2 % 4 * 64 + v3;
      && b0 < 256 && b1 < 256 && b2 < 256
      && b0 / 4 == v0 && b0 % 4 * 16 + b1 / 16 == v1 && b1 % 16 * 4 + b2 / 64 == v2 && b2 % 64 == v3
  {
  }

  lemma {:induction false} ShapeDecodes(s: Text, groups: nat) returns (bytes: seq<nat>)
    requires Shape(s, groups)
    ensures Octets(bytes) && |bytes| == 3 * groups + 1 && Encode(bytes) == s
    decreases groups
  {
    hide Sign, SignValue, Base64Char;
    if groups == 0 {
      var v0, v1 := SignValue(s[0]), SignValue(s[1]);
      ValueIs(s[0]);
      ValueIs(s[1]);
      SignIs(v1);
      bytes := [v0 * 4 + v1 / 16];
      assert bytes[0] / 4 == v0 && bytes[0] % 4 * 16 == v1;
    } else {
      assert s == s[..4] + s[4..];
      ShapeMore(s[..4], s[4..], groups - 1);
      var rest := ShapeDecodes(s[4..], groups - 1);
      bytes := GroupDecodes(s[0], s[1], s[2], s[3], rest);
      assert s[..4] == [s[0], s[1], s[2], s[3]];
    }
  }

  lemma GroupDecodes(c0: char, c1: char, c2: char, c3: char, rest: seq<nat>) returns (bytes: seq<nat>)
    requires Base64Char(c0) && Base64Char(c1) && Base64Char(c2) && Base64Char(c3) && Octets(rest)
    ensures Octets(bytes) && |bytes| == |rest| + 3 && Encode(bytes) == [c0, c1, c2, c3] + Encode(rest)
  {
    hide Sign, SignValue, Base64Char;
    var v0, v1, v2, v3 := SignValue(c0), SignValue(c1), SignValue(c2), SignValue(c3);
    ValueIs(c0);
    ValueIs(c1);
    ValueIs(c2);
    ValueIs(c3);
    GroupBack(v0, v1, v2, v3);
    bytes := [v0 * 4 + v1 / 16, v1 % 16 * 16 + v2 / 4, v2 % 4 * 64 + v3] + rest;
    assert bytes[3..] == rest;
  }

  /** The check accepts exactly the encodings of 64 bytes. */
  lemma SignatureIff(s: Text)
    ensures SignatureText(s) <==> exists bytes :: Octets(bytes) && |bytes| == 64 && Encode(bytes) == s
  {
    hide Base64Char;
    if SignatureText(s) {
      assert Shape(s, 21);
      var bytes := ShapeDecodes(s, 21);
    }
    forall bytes | Octets(bytes) && |bytes| == 64 && Encode(bytes) == s ensures SignatureText(s) {
      EncodedShape(bytes, 21);
    }
  }
}
