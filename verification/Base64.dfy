/** Base64 text of byte strings, and its URL-safe unpadded form. */
module Base64 {
  import opened Prelude

  type Byte = x: int | 0 <= x < 256
  type Bytes = seq<Byte>

  function Char(v: int): (c: char)
    requires 0 <= v < 64
    ensures c != '='
  {
    if v < 26 then ('A' as int + v) as char
    else if v < 52 then ('a' as int + v - 26) as char
    else if v < 62 then ('0' as int + v - 52) as char
    else if v == 62 then '+' else '/'
  }

  function Value(c: char): (r: Option<int>)
    ensures r.Some? ==> 0 <= r.value < 64 && Char(r.value) == c
  {
    if 'A' <= c <= 'Z' then Some(c as int - 'A' as int)
    else if 'a' <= c <= 'z' then Some(c as int - 'a' as int + 26)
    else if '0' <= c <= '9' then Some(c as int - '0' as int + 52)
    else if c == '+' then Some(62)
    else if c == '/' then Some(63)
    else None
  }

  const ALPHABET := "ABCDEFGHIJKLMNOPQRSTUVWXYZ" + ("abcdefghijklmnopqrstuvwxyz" + ("0123456789" + "+/"))

  /** Table 1 of RFC 4648. */
  lemma AlphabetIsTable1(v: int)
    requires 0 <= v < 64
    ensures |ALPHABET| == 64 && Char(v) == ALPHABET[v]
  {
    var upper, lower, digits := "ABCDEFGHIJKLMNOPQRSTUVWXYZ", "abcdefghijklmnopqrstuvwxyz", "0123456789";
    if v < 26 {
      assert ALPHABET[v] == upper[v];
    } else if v < 52 {
      assert ALPHABET[v] == lower[v - 26];
    } else if v < 62 {
      assert ALPHABET[v] == digits[v - 52];
    }
  }

  lemma ValueOfChar(v: int)
    requires 0 <= v < 64
    ensures Value(Char(v)) == Some(v)
  {
  }

  /** The significant characters: four for three bytes, one more than the bytes of a short last group. */
  function Body(b: Bytes): (s: string)
    ensures |s| == (4 * |b| + 2) / 3
    ensures forall i | 0 <= i < |s| :: s[i] != '=' && Value(s[i]).Some?
  {
    if |b| == 0 then ""
    else if |b| == 1 then [Char(b[0] / 4), Char(b[0] % 4 * 16)]
    else if |b| == 2 then [Char(b[0] / 4), Char(b[0] % 4 * 16 + b[1] / 16), Char(b[1] % 16 * 4)]
    else
      [Char(b[0] / 4), Char(b[0] % 4 * 16 + b[1] / 16), Char(b[1] % 16 * 4 + b[2] / 64), Char(b[2] % 64)]
      + Body(b[3..])
  }

  function Padding(n: nat): string {
    if n % 3 == 1 then "==" else if n % 3 == 2 then "=" else ""
  }

  function Encode(b: Bytes): string {
    Body(b) + Padding(|b|)
  }

  function Strip(s: string): string {
    if s != "" && s[|s| - 1] == '=' then Strip(s[..|s| - 1]) else s
  }

  lemma StripEncode(b: Bytes)
    ensures Strip(Encode(b)) == Body(b)
  {
    var body := Body(b);
    assert body == "" || body[|body| - 1] != '=';
    assert Strip(body) == body;
    if |b| % 3 == 2 {
      assert Encode(b)[..|Encode(b)| - 1] == body;
    } else if |b| % 3 == 1 {
      assert Encode(b)[..|Encode(b)| - 1] == body + "=";
      assert (body + "=")[..|body|] == body;
    } else {
      assert Encode(b) == body;
    }
  }

  function Sextets(s: string): Option<seq<int>> {
    if s == "" then Some([])
    else if Value(s[0]).None? || Sextets(s[1..]).None? then None
    else Some([Value(s[0]).value] + Sextets(s[1..]).value)
  }

  predicate AreSextets(v: seq<int>) { forall i | 0 <= i < |v| :: 0 <= v[i] < 64 }

  function Join(v: seq<int>): Option<Bytes>
    requires AreSextets(v)
  {
    if |v| == 0 then Some([])
    else if |v| == 1 then None
    else if |v| == 2 then Some([v[0] * 4 + v[1] / 16])
    else if |v| == 3 then Some([v[0] * 4 + v[1] / 16, v[1] % 16 * 16 + v[2] / 4])
    else
      var rest := Join(v[4..]);
      if rest.None? then None
      else Some([v[0] * 4 + v[1] / 16, v[1] % 16 * 16 + v[2] / 4, v[2] % 4 * 64 + v[3]] + rest.value)
  }

  lemma {:induction false} SextetsValid(s: string)
    ensures Sextets(s).Some? ==> AreSextets(Sextets(s).value)
  {
    if s == "" {
    } else {
      SextetsValid(s[1..]);
    }
  }

  function Decode(text: string): Option<Bytes> {
    var v := Sextets(Strip(text));
    if v.None? then None else
      SextetsValid(Strip(text));
      Join(v.value)
  }

  function CutOf(x: Byte, y: Byte, z: Byte): (v: seq<int>)
    ensures AreSextets(v)
  {
    [x / 4, x % 4 * 16 + y / 16, y % 16 * 4 + z / 64, z % 64]
  }

  /** The sextets a byte string is cut into. */
  function Cut(b: Bytes): (v: seq<int>)
    ensures AreSextets(v)
  {
    if |b| == 0 then []
    else if |b| == 1 then [b[0] / 4, b[0] % 4 * 16]
    else if |b| == 2 then [b[0] / 4, b[0] % 4 * 16 + b[1] / 16, b[1] % 16 * 4]
    else CutOf(b[0], b[1], b[2]) + Cut(b[3..])
  }

  /** The four sextets are the twenty-four bits of the three bytes, most significant first; a short last group
      is padded with zero bits. */
  lemma CutIsBigEndian(b: Bytes)
    ensures |b| == 1 ==> |Cut(b)| == 2 && Number(Cut(b)) == 16 * Bits(b)
    ensures |b| == 2 ==> |Cut(b)| == 3 && Number(Cut(b)) == 4 * Bits(b)
    ensures |b| >= 3 ==> |Cut(b)| >= 4 && Cut(b)[4..] == Cut(b[3..]) && Number(Cut(b)[..4]) == Bits(b[..3])
  {
    if |b| >= 3 {
      assert Cut(b) == CutOf(b[0], b[1], b[2]) + Cut(b[3..]);
      assert Cut(b)[..4] == CutOf(b[0], b[1], b[2]) && b[..3] == [b[0], b[1], b[2]];
      BigEndian(b[0], b[1], b[2]);
    } else if |b| == 2 {
      BigEndian(b[0], b[1], 0);
    }
  }

  /** Up to four sextets, and up to three bytes, read as one number. */
  function Number(v: seq<int>): int
    requires |v| <= 4
  {
    match |v|
    case 0 => 0
    case 1 => v[0]
    case 2 => v[0] * 64 + v[1]
    case 3 => v[0] * 4096 + v[1] * 64 + v[2]
    case _ => v[0] * 262144 + v[1] * 4096 + v[2] * 64 + v[3]
  }

  function Bits(b: Bytes): int
    requires |b| <= 3
  {
    var w: seq<int> := b;
    match |w|
    case 0 => 0
    case 1 => w[0]
    case 2 => w[0] * 256 + w[1]
    case _ => w[0] * 65536 + w[1] * 256 + w[2]
  }

  lemma BigEndian(x: Byte, y: Byte, z: Byte)
    ensures Number(CutOf(x, y, z)) == Bits([x, y, z])
  {
  }

  /** Three bytes survive the cut into four sextets. */
  lemma CutThree(x: int, y: int, z: int)
    requires 0 <= x < 256 && 0 <= y < 256 && 0 <= z < 256
    ensures x / 4 * 4 + (x % 4 * 16 + y / 16) / 16 == x
    ensures (x % 4 * 16 + y / 16) % 16 * 16 + (y % 16 * 4 + z / 64) / 4 == y
    ensures (y % 16 * 4 + z / 64) % 4 * 64 + z % 64 == z
  {
  }

  lemma JoinFour(v0: int, v1: int, v2: int, v3: int, v: seq<int>, rest: Bytes)
    requires AreSextets([v0, v1, v2, v3]) && AreSextets(v) && Join(v) == Some(rest)
    ensures AreSextets([v0, v1, v2, v3] + v)
    ensures Join([v0, v1, v2, v3] + v) == Some([v0 * 4 + v1 / 16, v1 % 16 * 16 + v2 / 4, v2 % 4 * 64 + v3] + rest)
  {
    var all := [v0, v1, v2, v3] + v;
    assert all[4..] == v;
    assert AreSextets(all) by {
      forall i | 0 <= i < |all| ensures 0 <= all[i] < 64 {
        if i < 4 { assert all[i] == [v0, v1, v2, v3][i]; } else { assert all[i] == v[i - 4]; }
      }
    }
  }

  lemma JoinThree(x: Byte, y: Byte, z: Byte, v: seq<int>, rest: Bytes)
    requires AreSextets(v) && Join(v) == Some(rest)
    ensures AreSextets(CutOf(x, y, z) + v) && Join(CutOf(x, y, z) + v) == Some([x, y, z] + rest)
  {
    var v0, v1, v2, v3 := x / 4, x % 4 * 16 + y / 16, y % 16 * 4 + z / 64, z % 64;
    assert CutOf(x, y, z) == [v0, v1, v2, v3];
    CutThree(x, y, z);
    JoinFour(v0, v1, v2, v3, v, rest);
  }

  lemma {:induction false} JoinCut(b: Bytes)
    ensures Join(Cut(b)) == Some(b)
  {
    if |b| == 0 {
    } else if |b| == 1 {
      assert b == [b[0]];
    } else if |b| == 2 {
      CutThree(b[0], b[1], 0);
      assert b == [b[0], b[1]];
    } else {
      JoinCut(b[3..]);
      JoinThree(b[0], b[1], b[2], Cut(b[3..]), b[3..]);
      assert b == [b[0], b[1], b[2]] + b[3..];
    }
  }

  function Chars(v: seq<int>): string
    requires AreSextets(v)
  {
    if v == [] then "" else [Char(v[0])] + Chars(v[1..])
  }

  lemma {:induction false} SextetsOfChars(v: seq<int>)
    requires AreSextets(v)
    ensures Sextets(Chars(v)) == Some(v)
  {
    if v == [] {
    } else {
      ValueOfChar(v[0]);
      SextetsOfChars(v[1..]);
      assert Chars(v)[0] == Char(v[0]) && Chars(v)[1..] == Chars(v[1..]);
      assert v == [v[0]] + v[1..];
    }
  }

  lemma {:induction false} CharsAppend(v: seq<int>, w: seq<int>)
    requires AreSextets(v) && AreSextets(w)
    ensures Chars(v + w) == Chars(v) + Chars(w)
  {
    if v == [] {
      assert v + w == w;
    } else {
      assert (v + w)[1..] == v[1..] + w;
      CharsAppend(v[1..], w);
    }
  }

  lemma {:induction false} BodyIsChars(b: Bytes)
    ensures Body(b) == Chars(Cut(b))
  {
    var v := Cut(b);
    if |b| == 0 {
    } else if |b| == 1 {
      TwoChars(v[0], v[1]);
    } else if |b| == 2 {
      CharsAppend(v[..2], v[2..]);
      assert v == v[..2] + v[2..];
      TwoChars(v[0], v[1]);
      assert Chars([v[2]]) == [Char(v[2])] + Chars([]);
    } else {
      BodyIsChars(b[3..]);
      CharsAppend(v[..4], Cut(b[3..]));
      assert v == v[..4] + Cut(b[3..]);
      FourChars(v[..4]);
    }
  }

  lemma FourChars(v: seq<int>)
    requires |v| == 4 && AreSextets(v)
    ensures Chars(v) == [Char(v[0]), Char(v[1]), Char(v[2]), Char(v[3])]
  {
    CharsAppend([v[0], v[1]], [v[2], v[3]]);
    assert v == [v[0], v[1]] + [v[2], v[3]];
    TwoChars(v[0], v[1]);
    TwoChars(v[2], v[3]);
  }

  lemma TwoChars(x: int, y: int)
    requires 0 <= x < 64 && 0 <= y < 64
    ensures Chars([x, y]) == [Char(x), Char(y)]
  {
    assert [x, y][1..] == [y] && [y][1..] == [];
    assert Chars([y]) == [Char(y)] + Chars([]);
  }

  /** Decoding gives back every byte string. */
  lemma RoundTrip(b: Bytes)
    ensures Decode(Encode(b)) == Some(b)
  {
    StripEncode(b);
    BodyIsChars(b);
    SextetsOfChars(Cut(b));
    JoinCut(b);
  }

  // ---- b64url ----

  function UrlChar(c: char): char {
    if c == '+' then '-' else if c == '/' then '_' else c
  }

  function Replace(s: string): (r: string)
    ensures |r| == |s| && forall i | 0 <= i < |s| :: r[i] == UrlChar(s[i])
  {
    seq(|s|, i requires 0 <= i < |s| => UrlChar(s[i]))
  }

  function B64Url(b: Bytes): string {
    Strip(Replace(Encode(b)))
  }

  /** Letters, digits, hyphen and underscore: a subset of what section 4.1 of RFC 7636 calls unreserved. */
  predicate UrlSafe(c: char) {
    'A' <= c <= 'Z' || 'a' <= c <= 'z' || '0' <= c <= '9' || c == '-' || c == '_'
  }

  lemma {:induction false} StripReplace(s: string)
    ensures Strip(Replace(s)) == Replace(Strip(s))
  {
    if s == "" || s[|s| - 1] != '=' {
    } else {
      StripReplace(s[..|s| - 1]);
      assert Replace(s)[..|s| - 1] == Replace(s[..|s| - 1]);
    }
  }

  /** The URL form has no padding, only URL-safe characters, and 43 of them for 32 bytes; distinct byte
      strings of one length have distinct texts. */
  lemma B64UrlShape(b: Bytes)
    ensures |B64Url(b)| == (4 * |b| + 2) / 3
    ensures |b| == 32 ==> |B64Url(b)| == 43
    ensures forall i | 0 <= i < |B64Url(b)| :: UrlSafe(B64Url(b)[i])
  {
    StripReplace(Encode(b));
    StripEncode(b);
    forall i | 0 <= i < |Body(b)| ensures UrlSafe(UrlChar(Body(b)[i])) {
      assert Value(Body(b)[i]).Some?;
    }
  }

  /** Character by character the URL form is the standard one without padding, but for the two characters that
      section 5 of RFC 4648 replaces. */
  lemma B64UrlIsTable2(b: Bytes)
    ensures var plain, url := Chars(Cut(b)), B64Url(b);
      && Encode(b) == plain + (if |b| % 3 == 1 then "==" else if |b| % 3 == 2 then "=" else "")
      && |url| == |plain|
      && forall i | 0 <= i < |url| ::
           url[i] == if plain[i] == '+' then '-' else if plain[i] == '/' then '_' else plain[i]
  {
    BodyIsChars(b);
    StripReplace(Encode(b));
    StripEncode(b);
  }

  lemma B64UrlInjective(a: Bytes, b: Bytes)
    requires B64Url(a) == B64Url(b)
    ensures a == b
  {
    StripReplace(Encode(a));
    StripReplace(Encode(b));
    StripEncode(a);
    StripEncode(b);
    forall i | 0 <= i < |Body(a)| ensures Body(a)[i] == Body(b)[i] {
      assert Replace(Body(a))[i] == Replace(Body(b))[i];
      assert Value(Body(a)[i]).Some? && Value(Body(b)[i]).Some?;
    }
    assert Body(a) == Body(b);
    BodyIsChars(a);
    BodyIsChars(b);
    SextetsOfChars(Cut(a));
    SextetsOfChars(Cut(b));
    JoinCut(a);
    JoinCut(b);
  }
}
