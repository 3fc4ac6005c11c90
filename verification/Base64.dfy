/**
 Base64url as in section 5 of RFC 4648, with the padding of its section 3.2. The decoder is the
 lenient one the program uses, which drops characters outside the alphabet.
 */
module Base64 {
  import opened Numerals
  import opened Wrappers

  function Sextet(v: int): char
    requires 0 <= v < 64
  {
    if v < 26 then ('A' as int + v) as char
    else if v < 52 then ('a' as int + (v - 26)) as char
    else if v < 62 then ('0' as int + (v - 52)) as char
    else if v == 62 then '-' else '_'
  }

  /** The value of a character; the decoder also takes '+' and '/' of the other alphabet. */
  function ValueOf(c: char): Option<int> {
    if 'A' <= c <= 'Z' then Some(c as int - 'A' as int)
    else if 'a' <= c <= 'z' then Some(c as int - 'a' as int + 26)
    else if '0' <= c <= '9' then Some(c as int - '0' as int + 52)
    else if c == '-' || c == '+' then Some(62)
    else if c == '_' || c == '/' then Some(63)
    else None
  }

  predicate IsBytes(b: seq<int>) { forall i | 0 <= i < |b| :: 0 <= b[i] < 256 }

  function Quad(x: int, y: int, z: int): string
    requires 0 <= x < 256 && 0 <= y < 256 && 0 <= z < 256
  {
    [Sextet(x / 4), Sextet(x % 4 * 16 + y / 16), Sextet(y % 16 * 4 + z / 64), Sextet(z % 64)]
  }

  /** Three bytes to four characters; one or two bytes left over are padded with '='. */
  function Encode(b: seq<int>): string
    requires IsBytes(b)
  {
    if |b| == 0 then ""
    else if |b| == 1 then [Sextet(b[0] / 4), Sextet(b[0] % 4 * 16), '=', '=']
    else if |b| == 2 then
      [Sextet(b[0] / 4), Sextet(b[0] % 4 * 16 + b[1] / 16), Sextet(b[1] % 16 * 4), '=']
    else Quad(b[0], b[1], b[2]) + Encode(b[3..])
  }

  function Emit(x: int, rest: Option<seq<int>>): Option<seq<int>> {
    match rest
    case None => None
    case Some(b) => Some([x] + b)
  }

  /**
   The decoder's loop: the position in the quad, the bits left over, and the padding seen. Padding
   that completes a quad ends the input; a quad left open at the end is an error.
   */
  function Scan(s: string, quad: nat, left: int, pads: nat): Option<seq<int>> {
    if s == "" then if quad == 0 then Some([]) else None
    else if s[0] == '=' then
      if quad < 2 then Scan(s[1..], quad, left, pads)
      else if quad + pads + 1 >= 4 then Some([])
      else Scan(s[1..], quad, left, pads + 1)
    else
      match ValueOf(s[0])
      case None => Scan(s[1..], quad, left, pads)
      case Some(v) =>
        if quad == 0 then Scan(s[1..], 1, v, 0)
        else if quad == 1 then Emit(left * 4 + v / 16, Scan(s[1..], 2, v % 16, 0))
        else if quad == 2 then Emit(left * 16 + v / 4, Scan(s[1..], 3, v % 4, 0))
        else Emit(left * 64 + v, Scan(s[1..], 0, 0, 0))
  }

  function Decode(s: string): Option<seq<int>> { Scan(s, 0, 0, 0) }

  function RStrip(s: string, c: char): string {
    if s != "" && s[|s| - 1] == c then RStrip(s[..|s| - 1], c) else s
  }

  function Repeat(c: char, n: nat): (r: string)
    ensures |r| == n && forall i | 0 <= i < n :: r[i] == c
  {
    if n == 0 then "" else Repeat(c, n - 1) + [c]
  }

  /** payload + "=" * (-len(payload) % 4): back to a multiple of four characters. */
  function Padded(payload: string): (r: string)
    ensures |r| % 4 == 0 && |r| < |payload| + 4
  {
    payload + Repeat('=', (4 - |payload| % 4) % 4)
  }

  function Payload(b: seq<int>): string
    requires IsBytes(b)
  {
    RStrip(Encode(b), '=')
  }

  lemma SextetValue(v: int)
    requires 0 <= v < 64
    ensures ValueOf(Sextet(v)) == Some(v) && Sextet(v) != '=' && Sextet(v) != '.'
  {
  }

  lemma {:induction false} ScanSextet(s: string, quad: nat, left: int, pads: nat, v: int)
    requires quad < 4 && 0 <= v < 64
    ensures Scan([Sextet(v)] + s, quad, left, pads) ==
            if quad == 0 then Scan(s, 1, v, 0)
            else if quad == 1 then Emit(left * 4 + v / 16, Scan(s, 2, v % 16, 0))
            else if quad == 2 then Emit(left * 16 + v / 4, Scan(s, 3, v % 4, 0))
            else Emit(left * 64 + v, Scan(s, 0, 0, 0))
  {
    SextetValue(v);
    assert ([Sextet(v)] + s)[1..] == s;
  }

  /** The bits of three bytes survive being regrouped by six. */
  lemma Regrouped(x: int, y: int, z: int)
    requires 0 <= x < 256 && 0 <= y < 256 && 0 <= z < 256
    ensures var a, b, c, d := x / 4, x % 4 * 16 + y / 16, y % 16 * 4 + z / 64, z % 64;
            && 0 <= a < 64 && 0 <= b < 64 && 0 <= c < 64 && 0 <= d < 64
            && a * 4 + b / 16 == x && b % 16 * 16 + c / 4 == y && c % 4 * 64 + d == z
  {
  }

  lemma {:induction false} ScanQuad(x: int, y: int, z: int, s: string)
    requires 0 <= x < 256 && 0 <= y < 256 && 0 <= z < 256
    ensures Scan(Quad(x, y, z) + s, 0, 0, 0) == Emit(x, Emit(y, Emit(z, Scan(s, 0, 0, 0))))
  {
    Regrouped(x, y, z);
    var a, b, c, d := x / 4, x % 4 * 16 + y / 16, y % 16 * 4 + z / 64, z % 64;
    var s3 := [Sextet(d)] + s;
    var s2 := [Sextet(c)] + s3;
    var s1 := [Sextet(b)] + s2;
    assert Quad(x, y, z) + s == [Sextet(a)] + s1;
    ScanSextet(s1, 0, 0, 0, a);
    ScanSextet(s2, 1, a, 0, b);
    ScanSextet(s3, 2, b % 16, 0, c);
    ScanSextet(s, 3, c % 4, 0, d);
  }

  lemma {:induction false} ScanPads(left: int)
    ensures Scan("==", 2, left, 0) == Some([]) && Scan("=", 3, left, 0) == Some([])
  {
    assert "=="[1..] == "=";
  }

  lemma ScanOne(x: int)
    requires 0 <= x < 256
    ensures Scan([Sextet(x / 4), Sextet(x % 4 * 16), '=', '='], 0, 0, 0) == Some([x])
  {
    Regrouped(x, 0, 0);
    var a, b := x / 4, x % 4 * 16;
    var s1 := [Sextet(b)] + "==";
    assert [Sextet(a), Sextet(b), '=', '='] == [Sextet(a)] + s1;
    ScanSextet(s1, 0, 0, 0, a);
    ScanSextet("==", 1, a, 0, b);
    ScanPads(b % 16);
    assert a * 4 + b / 16 == x && [x] + [] == [x];
  }

  lemma ScanTwo(x: int, y: int)
    requires 0 <= x < 256 && 0 <= y < 256
    ensures Scan([Sextet(x / 4), Sextet(x % 4 * 16 + y / 16), Sextet(y % 16 * 4), '='], 0, 0, 0) == Some([x, y])
  {
    Regrouped(x, y, 0);
    var a, b, c := x / 4, x % 4 * 16 + y / 16, y % 16 * 4;
    var s2 := [Sextet(c)] + "=";
    var s1 := [Sextet(b)] + s2;
    assert [Sextet(a), Sextet(b), Sextet(c), '='] == [Sextet(a)] + s1;
    ScanSextet(s1, 0, 0, 0, a);
    ScanSextet(s2, 1, a, 0, b);
    ScanSextet("=", 2, b % 16, 0, c);
    ScanPads(c % 4);
    assert a * 4 + b / 16 == x && b % 16 * 16 + c / 4 == y && [x] + ([y] + []) == [x, y];
  }

  lemma EmitThree(b: seq<int>)
    requires |b| >= 3
    ensures Emit(b[0], Emit(b[1], Emit(b[2], Some(b[3..])))) == Some(b)
  {
    assert b == [b[0]] + ([b[1]] + ([b[2]] + b[3..]));
  }

  /** Decoding gives back the encoded bytes. */
  lemma {:induction false} DecodeEncode(b: seq<int>)
    requires IsBytes(b)
    ensures Decode(Encode(b)) == Some(b)
  {
    if |b| >= 3 {
      DecodeEncode(b[3..]);
      ScanQuad(b[0], b[1], b[2], Encode(b[3..]));
      EmitThree(b);
    } else if |b| == 2 {
      ScanTwo(b[0], b[1]);
      assert b == [b[0], b[1]];
    } else if |b| == 1 {
      ScanOne(b[0]);
      assert b == [b[0]];
    }
  }

  lemma {:induction false} RStripSnoc(s: string, c: char)
    ensures RStrip(s + [c], c) == RStrip(s, c)
    ensures s != "" && s[|s| - 1] != c ==> RStrip(s, c) == s
  {
    assert (s + [c])[..|s|] == s;
  }

  predicate Plain(c: char) { c != '=' && c != '.' }

  predicate AllPlain(s: string) { forall i | 0 <= i < |s| :: Plain(s[i]) }

  lemma SextetsPlain(x: int, y: int)
    requires 0 <= x < 256 && 0 <= y < 256
    ensures AllPlain([Sextet(x / 4), Sextet(x % 4 * 16)])
    ensures AllPlain([Sextet(x / 4), Sextet(x % 4 * 16 + y / 16), Sextet(y % 16 * 4)])
  {
    Regrouped(x, y, 0);
    SextetValue(x / 4);
    SextetValue(x % 4 * 16);
    SextetValue(x % 4 * 16 + y / 16);
    SextetValue(y % 16 * 4);
  }

  predicate Shaped(code: string, body: string) {
    AllPlain(body) && code == body + Repeat('=', (4 - |body| % 4) % 4)
  }

  /** The encoding is some characters other than '=' and '.', then the padding. */
  lemma {:induction false} EncodingShape(b: seq<int>) returns (body: string)
    requires IsBytes(b)
    ensures Shaped(Encode(b), body)
  {
    if |b| >= 3 {
      var rest := EncodingShape(b[3..]);
      body := Quad(b[0], b[1], b[2]) + rest;
      QuadPlain(b[0], b[1], b[2]);
      QuadShape(Quad(b[0], b[1], b[2]), Encode(b[3..]), rest);
    } else {
      body := EndShape(b);
    }
  }

  lemma EndShape(b: seq<int>) returns (body: string)
    requires IsBytes(b) && |b| < 3
    ensures Shaped(Encode(b), body)
  {
    assert Repeat('=', 2) == "==" && Repeat('=', 1) == "=";
    if |b| == 0 {
      body := "";
    } else if |b| == 1 {
      SextetsPlain(b[0], 0);
      body := [Sextet(b[0] / 4), Sextet(b[0] % 4 * 16)];
    } else {
      SextetsPlain(b[0], b[1]);
      body := [Sextet(b[0] / 4), Sextet(b[0] % 4 * 16 + b[1] / 16), Sextet(b[1] % 16 * 4)];
    }
  }

  lemma QuadShape(quad: string, code: string, rest: string)
    requires |quad| == 4 && AllPlain(quad) && Shaped(code, rest)
    ensures Shaped(quad + code, quad + rest)
  {
    assert |quad + rest| % 4 == |rest| % 4;
    var pads := Repeat('=', (4 - |rest| % 4) % 4);
    assert quad + (rest + pads) == (quad + rest) + pads;
  }

  lemma QuadPlain(x: int, y: int, z: int)
    requires 0 <= x < 256 && 0 <= y < 256 && 0 <= z < 256
    ensures AllPlain(Quad(x, y, z))
  {
    Regrouped(x, y, z);
    SextetValue(x / 4);
    SextetValue(x % 4 * 16 + y / 16);
    SextetValue(y % 16 * 4 + z / 64);
    SextetValue(z % 64);
  }

  lemma {:induction false} StripRepeat(body: string, c: char, n: nat)
    requires Without(body, c)
    ensures RStrip(body + Repeat(c, n), c) == body
  {
    if n == 0 {
      assert body + Repeat(c, 0) == body;
    } else {
      StripRepeat(body, c, n - 1);
      assert body + Repeat(c, n) == (body + Repeat(c, n - 1)) + [c];
      RStripSnoc(body + Repeat(c, n - 1), c);
    }
  }

  /** Stripping the padding and putting it back restores the encoding. */
  lemma {:induction false} PaddingRestored(b: seq<int>)
    requires IsBytes(b)
    ensures Padded(Payload(b)) == Encode(b) && Without(Payload(b), '.')
  {
    var body := EncodingShape(b);
    assert forall i | 0 <= i < |body| :: Plain(body[i]);
    StripRepeat(body, '=', (4 - |body| % 4) % 4);
  }

  /** Vectors of section 10 of RFC 4648, and one that tells the alphabet of its section 5 from the usual one. */
  lemma {:induction false} KnownEncodings()
    ensures Encode([]) == "" && Encode([102]) == "Zg==" && Encode([102, 111]) == "Zm8=" && Encode([102, 111, 111]) == "Zm9v"
    ensures Encode([251, 255]) == "-_8="
  {
    assert [102, 111, 111][3..] == [];
  }

  lemma {:induction false} ScanCons(c: char, rest: string, quad: nat, left: int, pads: nat)
    ensures Scan([c] + rest, quad, left, pads) ==
            if c == '=' then
              if quad < 2 then Scan(rest, quad, left, pads)
              else if quad + pads + 1 >= 4 then Some([])
              else Scan(rest, quad, left, pads + 1)
            else
              match ValueOf(c)
              case None => Scan(rest, quad, left, pads)
              case Some(v) =>
                if quad == 0 then Scan(rest, 1, v, 0)
                else if quad == 1 then Emit(left * 4 + v / 16, Scan(rest, 2, v % 16, 0))
                else if quad == 2 then Emit(left * 16 + v / 4, Scan(rest, 3, v % 4, 0))
                else Emit(left * 64 + v, Scan(rest, 0, 0, 0))
  {
    assert ([c] + rest)[1..] == rest;
  }

  lemma {:induction false} ReadsBoth(a: char, b: char)
    requires ValueOf(a) == Some(62) && ValueOf(b) == Some(63)
    ensures Decode([a] + ([b] + ("8" + "="))) == Some([251, 255])
  {
    ScanPads(0);
    ScanCons('8', "=", 2, 15, 0);
    ScanCons(b, "8" + "=", 1, 62, 0);
    ScanCons(a, [b] + ("8" + "="), 0, 0, 0);
    assert [251] + ([255] + []) == [251, 255];
  }

  lemma {:induction false} ReadsPast()
    ensures Decode("Z g\n==") == Some([102])
  {
    ScanPads(0);
    ScanCons('\n', "==", 2, 0, 0);
    ScanCons('g', "\n" + "==", 1, 25, 0);
    ScanCons(' ', "g" + ("\n" + "=="), 1, 25, 0);
    ScanCons('Z', " " + ("g" + ("\n" + "==")), 0, 0, 0);
    assert "Z g\n==" == "Z" + (" " + ("g" + ("\n" + "=="))) && [102] + [] == [102];
  }

  /** Both alphabets are read, other characters are passed over, and a quad left open is refused. */
  lemma {:induction false} KnownDecodings()
    ensures Decode("-_8=") == Some([251, 255]) && Decode("+/8=") == Some([251, 255])
    ensures Decode("Z g\n==") == Some([102]) && Decode("Zg") == None && Decode("Z") == None && Decode("") == Some([])
  {
    ReadsBoth('-', '_');
    ReadsBoth('+', '/');
    assert "-_8=" == "-" + ("_" + ("8" + "=")) && "+/8=" == "+" + ("/" + ("8" + "="));
    ReadsPast();
    ScanCons('g', "", 1, 25, 0);
    ScanCons('Z', "g" + "", 0, 0, 0);
    ScanCons('Z', "", 0, 0, 0);
    assert "Zg" == "Z" + ("g" + "") && "Z" == "Z" + "";
  }
}
