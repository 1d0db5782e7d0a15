// The login token of internal/auth/admin.go: the compact form of section 7.1 of RFC 7515, with hex in
// place of base64url.
module Token {
  import opened Wrappers
  import opened Text
  import Hex

  type Bytes = seq<Hex.byte>

  datatype Payload = Payload(sub: string, exp: int, iat: int)

  // The HMAC under the program's secret, and encoding/json on payloads.
  datatype Codec = Codec(mac: string -> Bytes, marshal: Payload -> Bytes, unmarshal: Bytes -> Option<Payload>)

  datatype Error = BadFormat | BadSignature | BadPayload | Expired

  // Times are in nanoseconds, as time.Time has them.
  const SECOND: int := 1_000_000_000
  const EXPIRY: int := 24 * 3600 * SECOND

  // time.Time.Unix: whole seconds, rounded down.
  function Unix(t: int): int
  {
    t / SECOND
  }

  function Ascii(text: string): Bytes
  {
    seq(|text|, i requires 0 <= i < |text| => (text[i] as int % 256) as Hex.byte)
  }

  const HEADER := "{\"alg\":\"HS256\",\"typ\":\"JWT\"}"

  function Sign(codec: Codec, username: string, now: int): string
  {
    var payload := Payload(username, Unix(now + EXPIRY), Unix(now));
    var sigInput := Hex.Encode(Ascii(HEADER)) + "." + Hex.Encode(codec.marshal(payload));
    sigInput + "." + Hex.Encode(codec.mac(sigInput))
  }

  // ---------- splitting ----------

  // Cut at each of the first dots, up to that many.
  function SplitDots(token: string, dots: nat): (parts: seq<string>)
    ensures 1 <= |parts| <= dots + 1
    decreases |token|
  {
    if token == [] || dots == 0 then [token]
    else if token[0] == '.' then [""] + SplitDots(token[1..], dots - 1)
    else
      var rest := SplitDots(token[1..], dots);
      [[token[0]] + rest[0]] + rest[1..]
  }

  lemma {:induction false} SplitDotsHead(head: string, rest: string, dots: nat)
    requires '.' !in head
    ensures dots > 0 ==> SplitDots(head + "." + rest, dots) == [head] + SplitDots(rest, dots - 1)
    ensures SplitDots(head, dots) == [head]
    decreases |head|
  {
    var token := head + "." + rest;
    if head == [] {
      assert token[1..] == rest;
    } else {
      assert token[1..] == head[1..] + "." + rest;
      SplitDotsHead(head[1..], rest, dots);
      assert [head[0]] + head[1..] == head;
    }
  }

  predicate NoDotIn(token: string, from: nat, to: nat)
    requires from <= to <= |token|
  {
    forall k | from <= k < to :: token[k] != '.'
  }

  method SplitJWT(token: string) returns (result: seq<string>)
    ensures result == SplitDots(token, 2)
  {
    result := [];
    var start, count := 0, 0;
    assert CutSoFar(token, result, 0, 2) by {
      assert token[0..] == token;
    }
    var i := 0;
    while i < |token|
      invariant 0 <= start <= i <= |token| && count == |result| <= 1
      invariant NoDotIn(token, start, i)
      invariant CutSoFar(token, result, start, 2 - count)
    {
      if token[i] == '.' {
        CutAt(token, result, start, i, 2 - count);
        result := result + [token[start..i]];
        start := i + 1;
        count := count + 1;
        if count >= 2 {
          break;
        }
      }
      i := i + 1;
    }
    NoMoreCuts(token, result, start, 2 - count);
    result := result + [token[start..]];
  }

  // The parts cut off so far, and what the rest will be cut into.
  ghost predicate CutSoFar(token: string, result: seq<string>, start: nat, dots: nat)
    requires start <= |token|
  {
    SplitDots(token, 2) == result + SplitDots(token[start..], dots)
  }

  lemma CutAt(token: string, result: seq<string>, start: nat, i: nat, dots: nat)
    requires start <= i < |token| && NoDotIn(token, start, i) && token[i] == '.' && dots > 0
    requires CutSoFar(token, result, start, dots)
    ensures CutSoFar(token, result + [token[start..i]], i + 1, dots - 1)
  {
    var head, rest := token[start..i], token[i + 1..];
    assert token[start..] == head + "." + rest;
    SplitDotsHead(head, rest, dots);
    Onto(result, head, SplitDots(rest, dots - 1));
  }

  lemma Onto(result: seq<string>, head: string, rest: seq<string>)
    ensures result + ([head] + rest) == (result + [head]) + rest
  {}

  lemma NoMoreCuts(token: string, result: seq<string>, start: nat, dots: nat)
    requires start <= |token| && (dots == 0 || NoDotIn(token, start, |token|)) && CutSoFar(token, result, start, dots)
    ensures SplitDots(token, 2) == result + [token[start..]]
  {
    if dots > 0 {
      SplitDotsHead(token[start..], "", dots);
    }
  }

  // The parts join to the token, and all but a third are free of dots.
  lemma {:induction false} SplitDotsRejoins(token: string, dots: nat)
    ensures var parts := SplitDots(token, dots);
            && Join(parts, ".") == token
            && (forall i | 0 <= i < |parts| && i < dots :: '.' !in parts[i])
            && (|parts| <= dots ==> '.' !in token || |parts| > 1)
    decreases |token|
  {
    if token == [] || dots == 0 {
    } else if token[0] == '.' {
      SplitDotsRejoins(token[1..], dots - 1);
      var rest := SplitDots(token[1..], dots - 1);
      assert ([""] + rest)[1..] == rest;
      assert "" + "." + Join(rest, ".") == token;
    } else {
      SplitDotsRejoins(token[1..], dots);
      var rest := SplitDots(token[1..], dots);
      var parts := [[token[0]] + rest[0]] + rest[1..];
      assert parts[1..] == rest[1..];
      assert token == [token[0]] + token[1..];
      if |rest| > 1 {
        assert ([token[0]] + rest[0]) + "." + Join(rest[1..], ".")
               == [token[0]] + (rest[0] + "." + Join(rest[1..], "."));
      }
    }
  }

  // ---------- verifying ----------

  function Verify(codec: Codec, token: string, now: int): Result<string, Error>
  {
    var parts := SplitDots(token, 2);
    if |parts| != 3 then Err(BadFormat)
    else if Hex.Encode(codec.mac(parts[0] + "." + parts[1])) != parts[2] then Err(BadSignature)
    else
      match Hex.Decode(parts[1])
      case None => Err(BadPayload)
      case Some(bytes) =>
        match codec.unmarshal(bytes)
        case None => Err(BadPayload)
        case Some(payload) => if Unix(now) > payload.exp then Err(Expired) else Ok(payload.sub)
  }

  // A user name comes out of exactly the tokens accepted for it. A token is refused for its format if it
  // has less than two dots, and for its signature if what follows the second dot is not the HMAC.
  method VerifyJWT(codec: Codec, token: string, now: int) returns (r: Result<string, Error>)
    ensures r == Verify(codec, token, now)
    ensures forall username :: r == Ok(username) <==>
              exists header, body :: Accepted(codec, token, now, username, header, body)
    ensures r == Err(BadFormat) <==> forall a, b, c :: !Cut(token, a, b, c)
    ensures r == Err(BadSignature) <==> exists a, b, c :: Cut(token, a, b, c) && c != Hex.Encode(codec.mac(a + "." + b))
  {
    RefusedIff(codec, token, now);
    forall username
      ensures Verify(codec, token, now) == Ok(username) <==>
              exists header, body :: Accepted(codec, token, now, username, header, body)
    {
      AcceptedIff(codec, token, now, username);
    }
    var parts := SplitJWT(token);
    if |parts| != 3 {
      return Err(BadFormat);
    }
    var expectedSig := Hex.Encode(codec.mac(parts[0] + "." + parts[1]));
    if expectedSig != parts[2] {
      return Err(BadSignature);
    }
    var bytes := Hex.Decode(parts[1]);
    if bytes.None? {
      return Err(BadPayload);
    }
    var payload := codec.unmarshal(bytes.value);
    if payload.None? {
      return Err(BadPayload);
    }
    if Unix(now) > payload.value.exp {
      return Err(Expired);
    }
    return Ok(payload.value.sub);
  }

  // Hex text has no dots.
  lemma NoDot(data: Bytes)
    ensures '.' !in Hex.Encode(data)
  {
    Hex.EncodeIsHex(data);
  }

  lemma SplitThree(a: string, b: string, c: string)
    requires '.' !in a && '.' !in b
    ensures SplitDots(a + "." + b + "." + c, 2) == [a, b, c]
  {
    assert a + "." + b + "." + c == a + "." + (b + "." + c);
    SplitDotsHead(a, b + "." + c, 2);
    SplitDotsHead(b, c, 1);
    assert SplitDots(c, 0) == [c];
  }

  lemma JoinThree(a: string, b: string, c: string)
    ensures Join([a, b, c], ".") == a + "." + b + "." + c
  {
    assert [a, b, c][1..] == [b, c] && [b, c][1..] == [c];
    assert Join([b, c], ".") == b + "." + c;
    assert a + "." + (b + "." + c) == a + "." + b + "." + c;
  }

  // The token is cut at its first two dots.
  ghost predicate Cut(token: string, a: string, b: string, c: string)
  {
    '.' !in a && '.' !in b && token == a + "." + b + "." + c
  }

  lemma CutIsSplit(token: string, a: string, b: string, c: string)
    ensures Cut(token, a, b, c) <==> SplitDots(token, 2) == [a, b, c]
  {
    if Cut(token, a, b, c) {
      SplitThree(a, b, c);
    }
    if SplitDots(token, 2) == [a, b, c] {
      SplitDotsRejoins(token, 2);
      JoinThree(a, b, c);
      assert [a, b, c][0] == a && [a, b, c][1] == b;
    }
  }

  lemma RefusedIff(codec: Codec, token: string, now: int)
    ensures Verify(codec, token, now) == Err(BadFormat) <==> forall a, b, c :: !Cut(token, a, b, c)
    ensures Verify(codec, token, now) == Err(BadSignature) <==>
            exists a, b, c :: Cut(token, a, b, c) && c != Hex.Encode(codec.mac(a + "." + b))
  {
    var parts := SplitDots(token, 2);
    if |parts| == 3 {
      assert parts == [parts[0], parts[1], parts[2]];
      CutIsSplit(token, parts[0], parts[1], parts[2]);
    }
    forall a, b, c | Cut(token, a, b, c)
      ensures parts == [a, b, c]
    {
      CutIsSplit(token, a, b, c);
    }
  }

  // The payload the program writes is read back as it was.
  predicate ReadsBack(codec: Codec, username: string, signedAt: int)
  {
    var payload := Payload(username, Unix(signedAt + EXPIRY), Unix(signedAt));
    codec.unmarshal(codec.marshal(payload)) == Some(payload)
  }

  // A signed token gives back its user name exactly while the clock, in whole seconds, is not past the
  // second of the expiry.
  lemma SignedVerifiesIff(codec: Codec, username: string, signedAt: int, now: int)
    requires ReadsBack(codec, username, signedAt)
    ensures Verify(codec, Sign(codec, username, signedAt), now)
         == if Unix(now) <= Unix(signedAt + EXPIRY) then Ok(username) else Err(Expired)
  {
    var payload := Payload(username, Unix(signedAt + EXPIRY), Unix(signedAt));
    var header, body := Hex.Encode(Ascii(HEADER)), Hex.Encode(codec.marshal(payload));
    NoDot(Ascii(HEADER));
    NoDot(codec.marshal(payload));
    SplitThree(header, body, Hex.Encode(codec.mac(header + "." + body)));
    Hex.RoundTrip(codec.marshal(payload));
  }

  // So it is good up to and including 24 hours after signing, and bad from a second after that on.
  lemma GoodForADay(codec: Codec, username: string, signedAt: int, now: int)
    requires ReadsBack(codec, username, signedAt)
    ensures now <= signedAt + EXPIRY ==> Verify(codec, Sign(codec, username, signedAt), now) == Ok(username)
    ensures now >= signedAt + EXPIRY + SECOND ==> Verify(codec, Sign(codec, username, signedAt), now) == Err(Expired)
  {
    SignedVerifiesIff(codec, username, signedAt, now);
    assert now <= signedAt + EXPIRY ==> Unix(now) <= Unix(signedAt + EXPIRY);
    assert now >= signedAt + EXPIRY + SECOND ==>
           Unix(now) >= Unix(signedAt + EXPIRY + SECOND) == Unix(signedAt + EXPIRY) + 1;
  }

  // In between it can still be good: the rest of the second counts.
  lemma GoodForALittleMore(codec: Codec, username: string)
    requires ReadsBack(codec, username, 0)
    ensures Verify(codec, Sign(codec, username, 0), EXPIRY + SECOND - 1) == Ok(username)
  {
    SignedVerifiesIff(codec, username, 0, EXPIRY + SECOND - 1);
  }

  // Exactly these tokens are accepted: two dot-free parts with the HMAC of the two behind them, the
  // second part the hex of a payload that is not past its second of expiry.
  lemma AcceptedIff(codec: Codec, token: string, now: int, username: string)
    ensures Verify(codec, token, now) == Ok(username) <==>
            exists header, body :: Accepted(codec, token, now, username, header, body)
  {
    var parts := SplitDots(token, 2);
    SplitDotsRejoins(token, 2);
    if Verify(codec, token, now) == Ok(username) {
      JoinThree(parts[0], parts[1], parts[2]);
      assert parts == [parts[0], parts[1], parts[2]];
      assert Accepted(codec, token, now, username, parts[0], parts[1]);
    }
    if header, body :| Accepted(codec, token, now, username, header, body) {
      SplitThree(header, body, Hex.Encode(codec.mac(header + "." + body)));
    }
  }

  ghost predicate Accepted(codec: Codec, token: string, now: int, username: string, header: string, body: string)
  {
    && '.' !in header && '.' !in body
    && token == header + "." + body + "." + Hex.Encode(codec.mac(header + "." + body))
    && Hex.Decode(body).Some? && codec.unmarshal(Hex.Decode(body).value).Some?
    && var payload := codec.unmarshal(Hex.Decode(body).value).value;
       payload.sub == username && Unix(now) <= payload.exp
  }
}
