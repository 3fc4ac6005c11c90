/**
 Check-in tokens: `base64url(checkpoint.issued.nonce)`, without its padding, a dot, and the hex
 HMAC of the text before encoding. The text encoding and the keyed hash are parameters.
 */
module CheckinToken {
  import opened Base64
  import opened Numerals
  import opened Wrappers

  const CLOCK_SKEW_SECONDS := 5

  // ---- Splitting at dots ----------------------------------------------------------------------------

  /** rsplit(".", 1): None when there is no dot. */
  function SplitLast(s: string): Option<(string, string)> {
    if s == "" then None
    else
      var front, last := s[..|s| - 1], s[|s| - 1];
      if last == '.' then Some((front, ""))
      else
        match SplitLast(front)
        case None => None
        case Some((a, b)) => Some((a, b + [last]))
  }

  /** split("."). */
  function Fields(s: string): (r: seq<string>)
    ensures r != []
  {
    if s == "" then [""]
    else
      var rest := Fields(s[1..]);
      if s[0] == '.' then [""] + rest else [[s[0]] + rest[0]] + rest[1..]
  }

  lemma {:induction false} SplitAtLastDot(a: string, b: string)
    requires Without(b, '.')
    ensures SplitLast(a + "." + b) == Some((a, b))
  {
    var s := a + "." + b;
    if b == "" {
      assert s[..|s| - 1] == a;
    } else {
      SplitAtLastDot(a, b[..|b| - 1]);
      assert s[..|s| - 1] == a + "." + b[..|b| - 1];
      assert b == b[..|b| - 1] + [b[|b| - 1]];
    }
  }

  lemma {:induction false} FirstField(a: string, rest: string)
    requires Without(a, '.')
    ensures Fields(a + "." + rest) == [a] + Fields(rest)
  {
    var s := a + "." + rest;
    if a == "" {
      assert s[1..] == rest;
    } else {
      FirstField(a[1..], rest);
      assert s[1..] == a[1..] + "." + rest;
      assert a == [a[0]] + a[1..];
    }
  }

  lemma {:induction false} DotFreeField(s: string)
    ensures |Fields(s)| == 1 <==> Without(s, '.')
    ensures Without(s, '.') ==> Fields(s) == [s]
  {
    if s != "" {
      DotFreeField(s[1..]);
      assert s == [s[0]] + s[1..];
      if Without(s, '.') {
        assert forall i | 0 <= i < |s[1..]| :: s[1..][i] == s[i + 1];
      } else if s[0] != '.' {
        var k :| 0 <= k < |s| && s[k] == '.';
        assert s[1..][k - 1] == '.';
      }
    }
  }

  // ---- Minting and verifying --------------------------------------------------------------------------

  /** The text codec and the keyed hash. */
  datatype World = World(utf8: string -> seq<int>, unutf8: seq<int> -> Option<string>, sign: string -> string, ttl: int)

  predicate IsHex(s: string) { forall i | 0 <= i < |s| :: '0' <= s[i] <= '9' || 'a' <= s[i] <= 'f' }

  predicate IsAscii(s: string) { forall i | 0 <= i < |s| :: s[i] as int < 128 }

  /** Decoding undoes encoding, and a signature is lower-case hexadecimal. */
  ghost predicate Lawful(w: World) {
    && (forall s :: IsBytes(w.utf8(s)) && w.unutf8(w.utf8(s)) == Some(s))
    && (forall s :: IsHex(w.sign(s)))
  }

  datatype Claims = Claims(checkpoint: int, issued: int, nonce: string)

  datatype Rejection = Malformed | BadSignature | NotYetValid | Expired | UnsupportedSignature

  function Message(checkpoint: int, issued: int, nonce: string): string {
    Decimal(checkpoint) + "." + (Decimal(issued) + "." + nonce)
  }

  ghost function Mint(w: World, checkpoint: int, issued: int, nonce: string): string
    requires Lawful(w)
  {
    var message := Message(checkpoint, issued, nonce);
    Payload(w.utf8(message)) + "." + w.sign(message)
  }

  /** The text a payload stands for. */
  function TextOf(w: World, payload: string): Option<string> {
    match Decode(Padded(payload))
    case None => None
    case Some(b) => w.unutf8(b)
  }

  function ClaimsOf(message: string): Option<Claims> {
    var fields := Fields(message);
    if |fields| != 3 then None
    else
      match (ParseInt(fields[0]), ParseInt(fields[1]))
      case (Some(checkpoint), Some(issued)) => Some(Claims(checkpoint, issued, fields[2]))
      case _ => None
  }

  /** compare_digest takes only ASCII text: another signature ends the request without a verdict. */
  function Verify(w: World, token: string, now: int): Result<Claims, Rejection> {
    match SplitLast(token)
    case None => Failure(Malformed)
    case Some((payload, signature)) =>
      match TextOf(w, payload)
      case None => Failure(Malformed)
      case Some(message) =>
        match ClaimsOf(message)
        case None => Failure(Malformed)
        case Some(claims) =>
          if !IsAscii(signature) then Failure(UnsupportedSignature)
          else if w.sign(message) != signature then Failure(BadSignature)
          else if claims.issued > now + CLOCK_SKEW_SECONDS then Failure(NotYetValid)
          else if now - claims.issued > w.ttl then Failure(Expired)
          else Success(claims)
  }

  lemma {:induction false} ThreeFields(a: string, b: string, c: string)
    requires Without(a, '.') && Without(b, '.')
    ensures Fields(a + "." + (b + "." + c)) == [a, b] + Fields(c)
  {
    FirstField(a, b + "." + c);
    FirstField(b, c);
  }

  lemma {:induction false} MessageFields(checkpoint: int, issued: int, nonce: string)
    ensures Fields(Message(checkpoint, issued, nonce)) == [Decimal(checkpoint), Decimal(issued)] + Fields(nonce)
  {
    ParsePrinted(checkpoint);
    ParsePrinted(issued);
    ThreeFields(Decimal(checkpoint), Decimal(issued), nonce);
  }

  lemma MintedParts(w: World, checkpoint: int, issued: int, nonce: string)
    requires Lawful(w)
    ensures var message := Message(checkpoint, issued, nonce);
            && SplitLast(Mint(w, checkpoint, issued, nonce)) == Some((Payload(w.utf8(message)), w.sign(message)))
            && TextOf(w, Payload(w.utf8(message))) == Some(message) && IsAscii(w.sign(message))
  {
    var message := Message(checkpoint, issued, nonce);
    assert IsHex(w.sign(message));
    SplitAtLastDot(Payload(w.utf8(message)), w.sign(message));
    PaddingRestored(w.utf8(message));
    DecodeEncode(w.utf8(message));
  }

  lemma MessageClaims(checkpoint: int, issued: int, nonce: string)
    ensures ClaimsOf(Message(checkpoint, issued, nonce)) ==
            if Without(nonce, '.') then Some(Claims(checkpoint, issued, nonce)) else None
  {
    MessageFields(checkpoint, issued, nonce);
    DotFreeField(nonce);
    ParsePrinted(checkpoint);
    ParsePrinted(issued);
  }

  /**
   A minted token is read back as it was minted from 5 seconds before it was issued until its time
   is up, and rejected at every other moment; a nonce with a dot in it makes it unreadable.
   */
  lemma RoundTrip(w: World, checkpoint: int, issued: int, nonce: string, now: int)
    requires Lawful(w)
    ensures Verify(w, Mint(w, checkpoint, issued, nonce), now) ==
            if !Without(nonce, '.') then Failure(Malformed)
            else if now < issued - 5 then Failure(NotYetValid)
            else if now > issued + w.ttl then Failure(Expired)
            else Success(Claims(checkpoint, issued, nonce))
  {
    MintedParts(w, checkpoint, issued, nonce);
    MessageClaims(checkpoint, issued, nonce);
  }

  /** Different claims, or the same claims at another time, never share a token's text. */
  lemma MessagesDiffer(a: Claims, b: Claims)
    requires Message(a.checkpoint, a.issued, a.nonce) == Message(b.checkpoint, b.issued, b.nonce)
    ensures a == b
  {
    MessageFields(a.checkpoint, a.issued, a.nonce);
    MessageFields(b.checkpoint, b.issued, b.nonce);
    var fa, fb := Fields(Message(a.checkpoint, a.issued, a.nonce)), Fields(Message(b.checkpoint, b.issued, b.nonce));
    assert fa[0] == fb[0] && fa[1] == fb[1];
    ParsePrinted(a.checkpoint);
    ParsePrinted(b.checkpoint);
    ParsePrinted(a.issued);
    ParsePrinted(b.issued);
    SameTail(Decimal(a.checkpoint) + ".", Decimal(a.issued) + "." + a.nonce, Decimal(b.issued) + "." + b.nonce);
    SameTail(Decimal(a.issued) + ".", a.nonce, b.nonce);
  }

  lemma SameTail(head: string, x: string, y: string)
    requires head + x == head + y
    ensures x == y
  {
    assert (head + x)[|head|..] == x && (head + y)[|head|..] == y;
  }

  /** Whatever is accepted ends in the signature of the very text its claims were read from. */
  lemma AcceptedIsSigned(w: World, token: string, now: int) returns (payload: string, message: string)
    requires Verify(w, token, now).Success?
    ensures token == payload + "." + w.sign(message)
    ensures TextOf(w, payload) == Some(message) && ClaimsOf(message) == Some(Verify(w, token, now).value)
    ensures Verify(w, token, now).value.issued - 5 <= now <= Verify(w, token, now).value.issued + w.ttl
  {
    SplitRestores(token);
    payload := SplitLast(token).value.0;
    message := TextOf(w, payload).value;
  }

  lemma {:induction false} SplitRestores(s: string)
    ensures SplitLast(s).Some? ==> s == SplitLast(s).value.0 + "." + SplitLast(s).value.1
    ensures SplitLast(s).Some? ==> Without(SplitLast(s).value.1, '.')
  {
    if s != "" {
      SplitRestores(s[..|s| - 1]);
      assert s == s[..|s| - 1] + [s[|s| - 1]];
    }
  }

  /** What a token of a readable text is refused for, in the order the checks are made; an unreadable one is malformed. */
  lemma Verdict(w: World, token: string, now: int, payload: string, signature: string)
    requires token == payload + "." + signature && Without(signature, '.')
    ensures TextOf(w, payload) == None || ClaimsOf(TextOf(w, payload).value) == None ==> Verify(w, token, now) == Failure(Malformed)
    ensures TextOf(w, payload).Some? && ClaimsOf(TextOf(w, payload).value).Some? && IsAscii(signature) ==>
              var message := TextOf(w, payload).value;
              var claims := ClaimsOf(message).value;
              Verify(w, token, now) ==
              if signature != w.sign(message) then Failure(BadSignature)
              else if now < claims.issued - 5 then Failure(NotYetValid)
              else if now > claims.issued + w.ttl then Failure(Expired)
              else Success(claims)
  {
    SplitAtLastDot(payload, signature);
  }

  /** And so is a token without a dot. */
  lemma {:induction false} NoDotIsMalformed(w: World, token: string, now: int)
    requires Without(token, '.')
    ensures Verify(w, token, now) == Failure(Malformed)
  {
    NothingToSplit(token);
  }

  lemma {:induction false} NothingToSplit(s: string)
    requires Without(s, '.')
    ensures SplitLast(s) == None
  {
    if s != "" { NothingToSplit(s[..|s| - 1]); }
  }
}
