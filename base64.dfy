/** Go's `base64.StdEncoding` (the standard alphabet of section 4 of RFC 4648,
    with `=` padding), used by the LDAP provider to carry paging cookies in cursors.
    The decoder is Go's lenient one: it ignores carriage returns and line feeds
    and does not check that unused trailing bits are zero. */
module Base64 {
  import opened Wrappers

  type Byte = x: int | 0 <= x < 256
  type Sextet = x: int | 0 <= x < 64

  function Char(v: Sextet): (c: char)
    ensures c != '=' && c != '\r' && c != '\n'
  {
    if v < 26 then ('A' as int + v) as char
    else if v < 52 then ('a' as int + (v - 26)) as char
    else if v < 62 then ('0' as int + (v - 52)) as char
    else if v == 62 then '+'
    else '/'
  }

  function Value(c: char): Option<Sextet> {
    if 'A' <= c <= 'Z' then Some(c as int - 'A' as int)
    else if 'a' <= c <= 'z' then Some(c as int - 'a' as int + 26)
    else if '0' <= c <= '9' then Some(c as int - '0' as int + 52)
    else if c == '+' then Some(62)
    else if c == '/' then Some(63)
    else None
  }

  lemma ValueChar(v: Sextet)
    ensures Value(Char(v)) == Some(v)
  {
  }

  /** Encodes 3 bytes as 4 characters. */
  function EncodeGroup(b0: Byte, b1: Byte, b2: Byte): string {
    [Char(b0 / 4), Char((b0 % 4) * 16 + b1 / 16), Char((b1 % 16) * 4 + b2 / 64), Char(b2 % 64)]
  }

  /** `base64.StdEncoding.EncodeToString`. */
  function Encode(b: seq<Byte>): (r: string)
    ensures |r| % 4 == 0
    ensures |b| > 0 <==> |r| > 0
    ensures forall k :: 0 <= k < |r| ==> r[k] != '\r' && r[k] != '\n'
  {
    if |b| == 0 then []
    else if |b| == 1 then [Char(b[0] / 4), Char((b[0] % 4) * 16), '=', '=']
    else if |b| == 2 then [Char(b[0] / 4), Char((b[0] % 4) * 16 + b[1] / 16), Char((b[1] % 16) * 4), '=']
    else EncodeGroup(b[0], b[1], b[2]) + Encode(b[3..])
  }

  /** Removes the line breaks the decoder skips. */
  function StripNewlines(s: string): (r: string)
    ensures forall k :: 0 <= k < |r| ==> r[k] != '\r' && r[k] != '\n'
  {
    if s == [] then []
    else if s[0] == '\r' || s[0] == '\n' then StripNewlines(s[1..])
    else [s[0]] + StripNewlines(s[1..])
  }

  /** Decodes one 4-character group. The last group may end in `==` (one byte)
      or `=` (two bytes); no other group may hold padding. */
  function DecodeGroup(g: string, last: bool): Option<seq<Byte>>
    requires |g| == 4
  {
    var v0, v1, v2, v3 := Value(g[0]), Value(g[1]), Value(g[2]), Value(g[3]);
    if v0.None? || v1.None? then None
    else
      var x0: Byte := v0.value * 4 + v1.value / 16;
      if last && g[2] == '=' && g[3] == '=' then Some([x0])
      else if v2.None? then None
      else
        var x1: Byte := (v1.value % 16) * 16 + v2.value / 4;
        if last && g[3] == '=' then Some([x0, x1])
        else if v3.None? then None
        else Some([x0, x1, (v2.value % 4) * 64 + v3.value])
  }

  function DecodeGroups(t: string): Option<seq<Byte>>
    requires |t| % 4 == 0
  {
    if t == [] then Some([])
    else
      match DecodeGroup(t[..4], |t| == 4)
      case None => None
      case Some(g) =>
        match DecodeGroups(t[4..])
        case None => None
        case Some(rest) => Some(g + rest)
  }

  /** `base64.StdEncoding.DecodeString`; `None` is Go's `CorruptInputError`. */
  function Decode(s: string): Option<seq<Byte>> {
    var t := StripNewlines(s);
    if |t| % 4 != 0 then None else DecodeGroups(t)
  }

  /** The bit arithmetic of one group: the sextets put back together give the bytes. */
  lemma GroupArithmetic(b0: Byte, b1: Byte, b2: Byte)
    ensures (b0 / 4) * 4 + ((b0 % 4) * 16 + b1 / 16) / 16 == b0
    ensures (((b0 % 4) * 16 + b1 / 16) % 16) * 16 + ((b1 % 16) * 4 + b2 / 64) / 4 == b1
    ensures (((b1 % 16) * 4 + b2 / 64) % 4) * 64 + b2 % 64 == b2
  {
  }

  lemma GroupRoundTrip(b0: Byte, b1: Byte, b2: Byte, last: bool)
    ensures DecodeGroup(EncodeGroup(b0, b1, b2), last) == Some([b0, b1, b2])
  {
    var s0, s1, s2, s3: Sextet := b0 / 4, (b0 % 4) * 16 + b1 / 16, (b1 % 16) * 4 + b2 / 64, b2 % 64;
    ValueChar(s0);
    ValueChar(s1);
    ValueChar(s2);
    ValueChar(s3);
    GroupArithmetic(b0, b1, b2);
    var g := EncodeGroup(b0, b1, b2);
    assert g == [Char(s0), Char(s1), Char(s2), Char(s3)];
    assert g[2] != '=' && g[3] != '=';
  }

  lemma {:induction false} StripNewlinesNone(s: string)
    requires forall k :: 0 <= k < |s| ==> s[k] != '\r' && s[k] != '\n'
    ensures StripNewlines(s) == s
  {
    if s != [] {
      StripNewlinesNone(s[1..]);
      assert [s[0]] + s[1..] == s;
    }
  }

  /** A single trailing byte is written as two characters and `==`. */
  lemma OneByteRoundTrip(b0: Byte)
    ensures DecodeGroup([Char(b0 / 4), Char((b0 % 4) * 16), '=', '='], true) == Some([b0])
  {
    ValueChar(b0 / 4);
    ValueChar((b0 % 4) * 16);
    GroupArithmetic(b0, 0, 0);
  }

  /** Two trailing bytes are written as three characters and `=`. */
  lemma TwoBytesRoundTrip(b0: Byte, b1: Byte)
    ensures DecodeGroup([Char(b0 / 4), Char((b0 % 4) * 16 + b1 / 16), Char((b1 % 16) * 4), '='], true)
         == Some([b0, b1])
  {
    ValueChar(b0 / 4);
    ValueChar((b0 % 4) * 16 + b1 / 16);
    ValueChar((b1 % 16) * 4);
    GroupArithmetic(b0, b1, 0);
  }

  /** A text of one group decodes as that group, read as the last one. */
  lemma DecodeGroupsSingle(g: string)
    requires |g| == 4
    ensures DecodeGroups(g) == DecodeGroup(g, true)
  {
    assert g[..4] == g && g[4..] == [];
    if DecodeGroup(g, true).Some? {
      assert DecodeGroup(g, true).value + [] == DecodeGroup(g, true).value;
    }
  }

  /** A text of a full group followed by more groups decodes group by group. */
  lemma DecodeGroupsCons(g: string, t: string)
    requires |g| == 4 && |t| % 4 == 0 && t != []
    ensures DecodeGroups(g + t) ==
      match DecodeGroup(g, false)
      case None => None
      case Some(x) =>
        match DecodeGroups(t)
        case None => None
        case Some(rest) => Some(x + rest)
  {
    assert (g + t)[..4] == g && (g + t)[4..] == t;
  }

  lemma EncodeOneRoundTrip(b: seq<Byte>)
    requires |b| == 1
    ensures DecodeGroups(Encode(b)) == Some(b)
  {
    OneByteRoundTrip(b[0]);
    DecodeGroupsSingle(Encode(b));
    assert [b[0]] == b;
  }

  lemma EncodeTwoRoundTrip(b: seq<Byte>)
    requires |b| == 2
    ensures DecodeGroups(Encode(b)) == Some(b)
  {
    TwoBytesRoundTrip(b[0], b[1]);
    DecodeGroupsSingle(Encode(b));
    assert [b[0], b[1]] == b;
  }

  lemma SplitThree(b: seq<Byte>)
    requires |b| >= 3
    ensures b == [b[0], b[1], b[2]] + b[3..]
  {
  }

  lemma {:induction false} DecodeGroupsEncode(b: seq<Byte>)
    ensures DecodeGroups(Encode(b)) == Some(b)
  {
    if |b| == 1 {
      EncodeOneRoundTrip(b);
    } else if |b| == 2 {
      EncodeTwoRoundTrip(b);
    } else if |b| >= 3 {
      var g := EncodeGroup(b[0], b[1], b[2]);
      var t := Encode(b[3..]);
      assert Encode(b) == g + t;
      if t == [] {
        assert b[3..] == [];
        GroupRoundTrip(b[0], b[1], b[2], true);
        DecodeGroupsSingle(g);
        assert g + t == g;
        SplitThree(b);
        assert [b[0], b[1], b[2]] + [] == [b[0], b[1], b[2]];
      } else {
        DecodeGroupsEncode(b[3..]);
        GroupRoundTrip(b[0], b[1], b[2], false);
        DecodeGroupsCons(g, t);
        SplitThree(b);
      }
    }
  }

  /** A cookie put into a cursor comes back out of it unchanged. */
  lemma DecodeEncode(b: seq<Byte>)
    ensures Decode(Encode(b)) == Some(b)
  {
    StripNewlinesNone(Encode(b));
    DecodeGroupsEncode(b);
  }
}
