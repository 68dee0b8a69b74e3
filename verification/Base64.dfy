/** Unpadded base64, as base64.RawStdEncoding writes and reads it (RFC 4648, sections 3.2 and 4). */
module Base64 {
  import opened Common

  type byte = n: nat | n < 256

  type Sextet = n: nat | n < 64

  function Char(v: Sextet): (c: char)
    ensures Index(c) == Some(v)
  {
    if v < 26 then 'A' + (v as char)
    else if v < 52 then 'a' + ((v - 26) as char)
    else if v < 62 then '0' + ((v - 52) as char)
    else if v == 62 then '+' else '/'
  }

  function Index(c: char): Option<Sextet> {
    if 'A' <= c <= 'Z' then Some((c - 'A') as int)
    else if 'a' <= c <= 'z' then Some((c - 'a') as int + 26)
    else if '0' <= c <= '9' then Some((c - '0') as int + 52)
    else if c == '+' then Some(62)
    else if c == '/' then Some(63)
    else None
  }

  predicate InAlphabet(s: string) { forall i :: 0 <= i < |s| ==> Index(s[i]).Some? }

  /** The sextets of a group of three bytes. */
  function S0(a: byte): Sextet { a / 4 }

  function S1(a: byte, b: byte): Sextet { a % 4 * 16 + b / 16 }

  function S2(b: byte, c: byte): Sextet { b % 16 * 4 + c / 64 }

  function S3(c: byte): Sextet { c % 64 }

  function Four(p: Sextet, q: Sextet, r: Sextet, t: Sextet): string { [Char(p), Char(q), Char(r), Char(t)] }

  function Encode(bs: seq<byte>): (s: string)
    ensures InAlphabet(s)
  {
    if bs == [] then ""
    else if |bs| == 1 then [Char(S0(bs[0])), Char(S1(bs[0], 0))]
    else if |bs| == 2 then [Char(S0(bs[0])), Char(S1(bs[0], bs[1])), Char(S2(bs[1], 0))]
    else Four(S0(bs[0]), S1(bs[0], bs[1]), S2(bs[1], bs[2]), S3(bs[2])) + Encode(bs[3..])
  }

  /** The three bytes of four sextets; the bits left over in a short last group are ignored. */
  function First(p: Sextet, q: Sextet): byte { 4 * p + q / 16 }

  function Second(q: Sextet, r: Sextet): byte { q % 16 * 16 + r / 4 }

  function Third(r: Sextet, s: Sextet): byte { r % 4 * 64 + s }

  function Decode(s: string): Option<seq<byte>> {
    if s == "" then Some([])
    else if |s| == 1 || Index(s[0]).None? || Index(s[1]).None? then None
    else
      var (p, q) := (Index(s[0]).value, Index(s[1]).value);
      if |s| == 2 then Some([First(p, q)])
      else if Index(s[2]).None? then None
      else
        var r := Index(s[2]).value;
        if |s| == 3 then Some([First(p, q), Second(q, r)])
        else if Index(s[3]).None? then None
        else
          var rest := Decode(s[4..]);
          if rest.None? then None
          else Some([First(p, q), Second(q, r), Third(r, Index(s[3]).value)] + rest.value)
  }

  lemma BytesOfSextets(a: byte, b: byte, c: byte)
    ensures First(S0(a), S1(a, b)) == a && Second(S1(a, b), S2(b, c)) == b && Third(S2(b, c), S3(c)) == c
  {
  }

  lemma DecodeTwo(p: Sextet, q: Sextet)
    ensures Decode([Char(p), Char(q)]) == Some([First(p, q)])
  {
  }

  lemma DecodeThree(p: Sextet, q: Sextet, r: Sextet)
    ensures Decode([Char(p), Char(q), Char(r)]) == Some([First(p, q), Second(q, r)])
  {
  }

  lemma DecodeFour(p: Sextet, q: Sextet, r: Sextet, t: Sextet, rest: string)
    requires Decode(rest).Some?
    ensures Decode(Four(p, q, r, t) + rest) == Some([First(p, q), Second(q, r), Third(r, t)] + Decode(rest).value)
  {
    var s := Four(p, q, r, t) + rest;
    assert s[0] == Char(p) && s[1] == Char(q) && s[2] == Char(r) && s[3] == Char(t) && s[4..] == rest;
  }

  lemma EncodeLong(bs: seq<byte>) returns (p: Sextet, q: Sextet, r: Sextet, t: Sextet)
    requires |bs| >= 3
    ensures Encode(bs) == Four(p, q, r, t) + Encode(bs[3..])
    ensures First(p, q) == bs[0] && Second(q, r) == bs[1] && Third(r, t) == bs[2]
  {
    p, q, r, t := S0(bs[0]), S1(bs[0], bs[1]), S2(bs[1], bs[2]), S3(bs[2]);
    BytesOfSextets(bs[0], bs[1], bs[2]);
  }

  lemma EncodeOne(bs: seq<byte>) returns (p: Sextet, q: Sextet)
    requires |bs| == 1
    ensures Encode(bs) == [Char(p), Char(q)] && First(p, q) == bs[0]
  {
    p, q := S0(bs[0]), S1(bs[0], 0);
  }

  lemma EncodeTwo(bs: seq<byte>) returns (p: Sextet, q: Sextet, r: Sextet)
    requires |bs| == 2
    ensures Encode(bs) == [Char(p), Char(q), Char(r)] && First(p, q) == bs[0] && Second(q, r) == bs[1]
  {
    p, q, r := S0(bs[0]), S1(bs[0], bs[1]), S2(bs[1], 0);
    BytesOfSextets(bs[0], bs[1], 0);
  }

  lemma OneByte(bs: seq<byte>)
    requires |bs| == 1
    ensures Decode(Encode(bs)) == Some(bs)
  {
    var p, q := EncodeOne(bs);
    DecodeTwo(p, q);
    assert bs == [bs[0]];
  }

  lemma TwoBytes(bs: seq<byte>)
    requires |bs| == 2
    ensures Decode(Encode(bs)) == Some(bs)
  {
    var p, q, r := EncodeTwo(bs);
    DecodeThree(p, q, r);
    assert bs == [bs[0], bs[1]];
  }

  /** Reading back what was written. */
  lemma {:induction false} DecodeOfEncode(bs: seq<byte>)
    ensures Decode(Encode(bs)) == Some(bs)
  {
    if bs == [] {
    } else if |bs| == 1 {
      OneByte(bs);
    } else if |bs| == 2 {
      TwoBytes(bs);
    } else {
      DecodeOfEncode(bs[3..]);
      var p, q, r, t := EncodeLong(bs);
      DecodeFour(p, q, r, t, Encode(bs[3..]));
      assert bs == [bs[0], bs[1], bs[2]] + bs[3..];
    }
  }

  predicate FourIn(s: string)
    requires |s| >= 4
  {
    Index(s[0]).Some? && Index(s[1]).Some? && Index(s[2]).Some? && Index(s[3]).Some?
  }

  lemma AlphabetByFours(s: string)
    requires |s| >= 4
    ensures InAlphabet(s) <==> FourIn(s) && InAlphabet(s[4..])
  {
    var t := s[4..];
    assert forall i :: 4 <= i < |s| ==> s[i] == t[i - 4];
    assert forall i :: 0 <= i < |t| ==> t[i] == s[i + 4];
  }

  lemma DecodeByFours(s: string)
    requires |s| >= 4
    ensures Decode(s).Some? <==> FourIn(s) && Decode(s[4..]).Some?
  {
  }

  /** The decoder accepts exactly the strings over the alphabet that do not leave one character over. */
  lemma {:induction false} DecodesExactly(s: string)
    ensures Decode(s).Some? <==> InAlphabet(s) && |s| % 4 != 1
    decreases |s|
  {
    if |s| >= 4 {
      DecodesExactly(s[4..]);
      AlphabetByFours(s);
      DecodeByFours(s);
      assert |s[4..]| == |s| - 4;
    } else {
      ShortDecodes(s);
    }
  }

  lemma ShortDecodes(s: string)
    requires |s| < 4
    ensures Decode(s).Some? <==> InAlphabet(s) && |s| != 1
  {
    if |s| == 1 {
      assert Decode(s).None?;
    } else if |s| == 2 {
      assert InAlphabet(s) <==> Index(s[0]).Some? && Index(s[1]).Some?;
    } else if |s| == 3 {
      assert InAlphabet(s) <==> Index(s[0]).Some? && Index(s[1]).Some? && Index(s[2]).Some?;
    }
  }

  /** The test vectors of RFC 4648, section 10, without their padding: f, fo, foo, foobar. */
  lemma ShortVectors()
    ensures Encode([102]) == "Zg" && Encode([102, 111]) == "Zm8"
  {
    assert S0(102) == 25 && S1(102, 0) == 32 && S1(102, 111) == 38 && S2(111, 0) == 60;
    assert Char(25) == 'Z' && Char(32) == 'g' && Char(38) == 'm' && Char(60) == '8';
  }

  lemma GroupVectors(rest: seq<byte>)
    ensures Encode([102, 111, 111] + rest) == "Zm9v" + Encode(rest)
    ensures Encode([98, 97, 114] + rest) == "YmFy" + Encode(rest)
  {
    assert ([102, 111, 111] + rest)[3..] == rest && ([98, 97, 114] + rest)[3..] == rest;
    assert S0(102) == 25 && S1(102, 111) == 38 && S2(111, 111) == 61 && S3(111) == 47;
    assert S0(98) == 24 && S1(98, 97) == 38 && S2(97, 114) == 5 && S3(114) == 50;
    assert Char(25) == 'Z' && Char(38) == 'm' && Char(61) == '9' && Char(47) == 'v';
    assert Char(24) == 'Y' && Char(5) == 'F' && Char(50) == 'y';
  }

  lemma StandardVectors()
    ensures Encode([102]) == "Zg" && Encode([102, 111]) == "Zm8" && Encode([102, 111, 111]) == "Zm9v"
    ensures Encode([102, 111, 111, 98, 97, 114]) == "Zm9vYmFy"
  {
    ShortVectors();
    GroupVectors([]);
    GroupVectors([98, 97, 114]);
    assert [102, 111, 111] + [] == [102, 111, 111] && [98, 97, 114] + [] == [98, 97, 114];
    assert [102, 111, 111] + [98, 97, 114] == [102, 111, 111, 98, 97, 114];
  }
}
