/** Base64 text in the standard alphabet of section 4 of RFC 4648, decoded
    strictly: the text is whole four-character groups, `=` padding appears
    only at the end of the last group, and no other character is allowed.
    Like Python's decoder, the unused low bits of a padded group are ignored. */
module Base64 {
  import opened Wrappers
  import opened Bytes

  /** The character of a six-bit value. */
  function CharOf(v: int): char
    requires 0 <= v < 64
  {
    if v < 26 then (('A' as int) + v) as char
    else if v < 52 then (('a' as int) + v - 26) as char
    else if v < 62 then (('0' as int) + v - 52) as char
    else if v == 62 then '+'
    else '/'
  }

  /** The six-bit value of an alphabet character; None for any other character,
      the pad character `=` included. */
  function ValueOf(c: char): (r: Option<int>)
    ensures r.Some? ==> 0 <= r.value < 64 && CharOf(r.value) == c
    ensures c == '=' ==> r.None?
  {
    if 'A' <= c <= 'Z' then Some(c as int - 'A' as int)
    else if 'a' <= c <= 'z' then Some(c as int - 'a' as int + 26)
    else if '0' <= c <= '9' then Some(c as int - '0' as int + 52)
    else if c == '+' then Some(62)
    else if c == '/' then Some(63)
    else None
  }

  lemma ValueOfCharOf(v: int)
    requires 0 <= v < 64
    ensures ValueOf(CharOf(v)) == Some(v)
  {
  }

  function EncodeGroup(a: Byte, b: Byte, c: Byte): string {
    [CharOf(a / 4), CharOf((a % 4) * 16 + b / 16), CharOf((b % 16) * 4 + c / 64), CharOf(c % 64)]
  }

  /** Base64 text of `bs`, padded with `=` to whole groups. */
  function Encode(bs: seq<Byte>): string
    decreases |bs|
  {
    if |bs| == 0 then ""
    else if |bs| == 1 then [CharOf(bs[0] / 4), CharOf((bs[0] % 4) * 16), '=', '=']
    else if |bs| == 2 then [CharOf(bs[0] / 4), CharOf((bs[0] % 4) * 16 + bs[1] / 16), CharOf((bs[1] % 16) * 4), '=']
    else EncodeGroup(bs[0], bs[1], bs[2]) + Encode(bs[3..])
  }

  /** The bytes of one group: four characters without padding, or, when
      `last`, also two or three characters followed by padding. */
  function DecodeGroup(q: string, last: bool): (r: Option<seq<Byte>>)
    requires |q| == 4
    ensures r.Some? ==> 1 <= |r.value| <= 3
  {
    var v0, v1, v2, v3 := ValueOf(q[0]), ValueOf(q[1]), ValueOf(q[2]), ValueOf(q[3]);
    if v0.None? || v1.None? then None
    else
      var b0 := v0.value * 4 + v1.value / 16;
      if last && q[2] == '=' && q[3] == '=' then Some([b0])
      else if v2.None? then None
      else
        var b1 := (v1.value % 16) * 16 + v2.value / 4;
        if last && q[3] == '=' then Some([b0, b1])
        else if v3.None? then None
        else Some([b0, b1, (v2.value % 4) * 64 + v3.value])
  }

  /** The bytes encoded by `s`, or None when `s` is not well-formed Base64. */
  function Decode(s: string): (r: Option<seq<Byte>>)
    ensures r.Some? ==> (|r.value| == 0 <==> s == "")
    decreases |s|
  {
    if s == "" then Some([])
    else if |s| < 4 then None
    else
      match DecodeGroup(s[..4], |s| == 4)
      case None => None
      case Some(group) =>
        match Decode(s[4..])
        case None => None
        case Some(rest) => Some(group + rest)
  }

  lemma DecodeGroupOne(a: Byte)
    ensures DecodeGroup([CharOf(a / 4), CharOf((a % 4) * 16), '=', '='], true) == Some([a])
  {
    ValueOfCharOf(a / 4);
    ValueOfCharOf((a % 4) * 16);
  }

  lemma DecodeGroupTwo(a: Byte, b: Byte)
    ensures DecodeGroup([CharOf(a / 4), CharOf((a % 4) * 16 + b / 16), CharOf((b % 16) * 4), '='], true) == Some([a, b])
  {
    var v1 := (a % 4) * 16 + b / 16;
    ValueOfCharOf(a / 4);
    ValueOfCharOf(v1);
    ValueOfCharOf((b % 16) * 4);
    assert v1 / 16 == a % 4 && v1 % 16 == b / 16;
  }

  lemma DecodeGroupThree(a: Byte, b: Byte, c: Byte, last: bool)
    ensures DecodeGroup(EncodeGroup(a, b, c), last) == Some([a, b, c])
  {
    var v1, v2 := (a % 4) * 16 + b / 16, (b % 16) * 4 + c / 64;
    ValueOfCharOf(a / 4);
    ValueOfCharOf(v1);
    ValueOfCharOf(v2);
    ValueOfCharOf(c % 64);
    assert v1 / 16 == a % 4 && v1 % 16 == b / 16;
    assert v2 / 4 == b % 16 && v2 % 4 == c / 64;
  }

  lemma DecodeEncodeOne(a: Byte)
    ensures Decode(Encode([a])) == Some([a])
  {
    var s := [CharOf(a / 4), CharOf((a % 4) * 16), '=', '='];
    assert Encode([a]) == s;
    DecodeGroupOne(a);
    assert s[..4] == s && s[4..] == "";
    assert [a] + [] == [a];
  }

  lemma DecodeEncodeTwo(a: Byte, b: Byte)
    ensures Decode(Encode([a, b])) == Some([a, b])
  {
    var s := [CharOf(a / 4), CharOf((a % 4) * 16 + b / 16), CharOf((b % 16) * 4), '='];
    assert Encode([a, b]) == s;
    DecodeGroupTwo(a, b);
    assert s[..4] == s && s[4..] == "";
    assert [a, b] + [] == [a, b];
  }

  /** A group in front of well-formed text decodes to the group's bytes
      followed by the text's. */
  lemma DecodeCons(group: string, rest: string, g: seq<Byte>, r: seq<Byte>)
    requires |group| == 4
    requires DecodeGroup(group, rest == "") == Some(g)
    requires Decode(rest) == Some(r)
    ensures Decode(group + rest) == Some(g + r)
  {
    var s := group + rest;
    assert s[..4] == group;
    assert s[4..] == rest;
  }

  lemma EncodeThree(bs: seq<Byte>)
    requires |bs| >= 3
    ensures Encode(bs) == EncodeGroup(bs[0], bs[1], bs[2]) + Encode(bs[3..])
  {
  }

  /** An encoded group in front of well-formed text decodes to its three
      bytes followed by the text's. */
  lemma DecodeGroupCons(a: Byte, b: Byte, c: Byte, rest: string, r: seq<Byte>)
    requires Decode(rest) == Some(r)
    ensures Decode(EncodeGroup(a, b, c) + rest) == Some([a, b, c] + r)
  {
    DecodeGroupThree(a, b, c, rest == "");
    DecodeCons(EncodeGroup(a, b, c), rest, [a, b, c], r);
  }

  /** The step of the round trip: three bytes in front of a string whose
      encoding decodes back. */
  lemma DecodeEncodeStep(bs: seq<Byte>, rest: string)
    requires |bs| >= 3
    requires Decode(rest) == Some(bs[3..])
    ensures Decode(EncodeGroup(bs[0], bs[1], bs[2]) + rest) == Some(bs)
  {
    var tail := bs[3..];
    var front: seq<Byte> := [bs[0], bs[1], bs[2]];
    assert front + tail == bs;
    DecodeGroupCons(bs[0], bs[1], bs[2], rest, tail);
  }

  /** Decoding the encoding of any byte string gives back the bytes. */
  lemma {:induction false} DecodeEncode(bs: seq<Byte>)
    ensures Decode(Encode(bs)) == Some(bs)
    decreases |bs|
  {
    if |bs| == 1 {
      assert bs == [bs[0]];
      DecodeEncodeOne(bs[0]);
    } else if |bs| == 2 {
      assert bs == [bs[0], bs[1]];
      DecodeEncodeTwo(bs[0], bs[1]);
    } else if |bs| >= 3 {
      DecodeEncode(bs[3..]);
      DecodeEncodeStep(bs, Encode(bs[3..]));
      EncodeThree(bs);
    }
  }
}
