/**
  Token claims: internal/token_manager/jwt.go and the user read back in
  internal/api/api_v1/middleware.go. A user id travels as a JSON number and becomes a float both
  when the token is made and when it is read. Signatures are modelled by what they are for: a
  token names the algorithm and the secret it was signed with.
 */
module Claims {
  import opened Domain
  import opened Numbers

  // ----- tokens -----

  datatype SigningMethod = HS256 | ES256 | RS256
  datatype Settings = Settings(alg: SigningMethod, secret: Bytes, ttl: Time)

  /** UserClaims when a token is made, and the middleware's `user` when it is read. */
  datatype UserClaims = UserClaims(login: string, id: int)

  /** A claim in memory, and on the wire as JSON text. */
  datatype Claim = Text(text: string) | Float(value: int) | NumericDate(seconds: nat)
  datatype Json = JsonString(text: string) | JsonNumber(digits: string)

  datatype Token = Token(alg: SigningMethod, secret: Bytes, payload: map<string, Json>)

  const NANOS: nat := 1_000_000_000

  function MarshalClaim(claim: Claim): Json {
    match claim
    case Text(s) => JsonString(s)
    case Float(f) => JsonNumber(EncodeFloat(f))
    case NumericDate(n) => JsonNumber(Print(n))
  }

  function UnmarshalClaim(json: Json): Claim {
    match json
    case JsonString(s) => Text(s)
    case JsonNumber(digits) =>
      var f := DecodeFloat(digits);
      Float(if f.Some? then f.value else 0)
  }

  function MarshalMap(claims: map<string, Claim>): map<string, Json> {
    map key | key in claims :: MarshalClaim(claims[key])
  }

  function UnmarshalMap(json: map<string, Json>): map<string, Claim> {
    map key | key in json :: UnmarshalClaim(json[key])
  }

  class TokenMaker {
    const settings: Settings

    constructor (s: Settings)
      ensures settings == s
    {
      settings := s;
    }

    /** Fills the claims map step by step, then signs; a byte secret can only sign HS256. */
    method Create(data: UserClaims, now: Time) returns (r: Result<Token>)
      ensures r == Issue(settings, data, now)
      ensures r.Ok? <==> settings.alg.HS256?
      ensures r.Err? ==> r == Err(ErrInternal)
      ensures r.Ok? ==>
                && r.value.alg == settings.alg && r.value.secret == settings.secret
                && r.value.payload.Keys == {"Login", "ID", "iat", "exp"}
                && r.value.payload["iat"] == JsonNumber(Print(now / 1_000_000_000))
                && r.value.payload["exp"] == JsonNumber(Print((now + settings.ttl) / 1_000_000_000))
    {
      var bytes := map["Login" := JsonString(data.login), "ID" := JsonNumber(Print(data.id))];
      var claims := UnmarshalMap(bytes);
      claims := claims["iat" := NumericDate(now / NANOS)];
      claims := claims["exp" := NumericDate((now + settings.ttl) / NANOS)];
      if settings.alg != HS256 {
        return Err(ErrInternal);
      }
      return Ok(Token(settings.alg, settings.secret, MarshalMap(claims)));
    }

    /** Reads the claims back into the caller's user; keys match regardless of case, missing ones stay zero. */
    method Parse(token: Token, now: Time) returns (r: Result<UserClaims>)
      ensures r == Read(settings, token, now)
      ensures r.Ok? ==> token.alg == settings.alg && token.secret == settings.secret
      ensures r.Err? ==> r == Err(ErrInvalidToken)
    {
      if token.alg != settings.alg || token.secret != settings.secret {
        return Err(ErrInvalidToken);
      }
      var claims := UnmarshalMap(token.payload);
      if Expired(claims, now) {
        return Err(ErrInvalidToken);
      }
      var bytes := MarshalMap(claims);
      var user := UserClaims("", 0);
      if "Login" in bytes {
        if !bytes["Login"].JsonString? {
          return Err(ErrInvalidToken);
        }
        user := user.(login := bytes["Login"].text);
      }
      if "ID" in bytes {
        if !bytes["ID"].JsonNumber? {
          return Err(ErrInvalidToken);
        }
        var id := DecodeInt(bytes["ID"].digits);
        if id.Err? {
          return Err(ErrInvalidToken);
        }
        user := user.(id := id.value);
      }
      return Ok(user);
    }
  }

  function ClaimsOf(data: UserClaims, now: Time, ttl: Time): map<string, Claim> {
    UnmarshalMap(map["Login" := JsonString(data.login), "ID" := JsonNumber(Print(data.id))])
      ["iat" := NumericDate(now / NANOS)]["exp" := NumericDate((now + ttl) / NANOS)]
  }

  function Issue(st: Settings, data: UserClaims, now: Time): Result<Token> {
    if st.alg.HS256? then Ok(Token(st.alg, st.secret, MarshalMap(ClaimsOf(data, now, st.ttl)))) else Err(ErrInternal)
  }

  /** RFC 7519 section 4.1.4: not accepted on or after the expiry instant, nor with one that is no number. */
  predicate Expired(claims: map<string, Claim>, now: Time) {
    "exp" in claims && !(claims["exp"].Float? && now < claims["exp"].value * NANOS)
  }

  function ReadLogin(json: map<string, Json>): Result<string> {
    if "Login" !in json then Ok("")
    else if json["Login"].JsonString? then Ok(json["Login"].text)
    else Err(ErrInvalidToken)
  }

  function ReadId(json: map<string, Json>): Result<int> {
    if "ID" !in json then Ok(0)
    else if json["ID"].JsonNumber? then DecodeInt(json["ID"].digits)
    else Err(ErrInvalidToken)
  }

  function Read(st: Settings, token: Token, now: Time): Result<UserClaims> {
    if token.alg != st.alg || token.secret != st.secret then Err(ErrInvalidToken) else
    var claims := UnmarshalMap(token.payload);
    if Expired(claims, now) then Err(ErrInvalidToken) else
    var login, id := ReadLogin(MarshalMap(claims)), ReadId(MarshalMap(claims));
    if login.Ok? && id.Ok? then Ok(UserClaims(login.value, id.value)) else Err(ErrInvalidToken)
  }

  /** When a token made at `created` stops being accepted, as a float that was once whole seconds. */
  function ExpiryOf(st: Settings, created: Time): int {
    Round((created + st.ttl) / NANOS) * NANOS
  }

  lemma ClaimsAre(data: UserClaims, created: Time, ttl: Time)
    ensures var claims := ClaimsOf(data, created, ttl);
            && "Login" in claims && claims["Login"] == Text(data.login)
            && "ID" in claims && claims["ID"] == UnmarshalClaim(JsonNumber(Print(data.id)))
            && "exp" in claims && claims["exp"] == NumericDate((created + ttl) / NANOS)
  {
  }

  lemma WireTrip(claims: map<string, Claim>, key: string)
    requires key in claims
    ensures key in UnmarshalMap(MarshalMap(claims))
    ensures UnmarshalMap(MarshalMap(claims))[key] == UnmarshalClaim(MarshalClaim(claims[key]))
  {
  }

  lemma IdTrip(id: int)
    requires Magnitude(id) <= TWO53
    ensures UnmarshalClaim(JsonNumber(Print(id))) == Float(id)
    ensures UnmarshalClaim(MarshalClaim(Float(id))) == Float(id)
    ensures MarshalClaim(Float(id)) == JsonNumber(Print(id)) && DecodeInt(Print(id)) == Ok(id)
  {
    FloatTrip(id);
    ParsePrint(id);
  }

  lemma DateTrip(n: nat)
    ensures UnmarshalClaim(MarshalClaim(NumericDate(n))) == Float(Round(n))
  {
    ParsePrint(n);
  }

  predicate Carries(claims: map<string, Claim>, data: UserClaims, expiry: int) {
    && "Login" in claims && claims["Login"] == Text(data.login)
    && "ID" in claims && claims["ID"] == Float(data.id)
    && "exp" in claims && claims["exp"] == Float(expiry)
  }

  lemma OnTheWire(data: UserClaims, created: Time, ttl: Time)
    requires Magnitude(data.id) <= TWO53
    ensures Carries(UnmarshalMap(MarshalMap(ClaimsOf(data, created, ttl))), data, Round((created + ttl) / NANOS))
  {
    var claims := ClaimsOf(data, created, ttl);
    ClaimsAre(data, created, ttl);
    assert claims["ID"] == Float(data.id) by { IdTrip(data.id); }
    assert UnmarshalClaim(MarshalClaim(claims["ID"])) == Float(data.id) by { IdTrip(data.id); }
    assert UnmarshalClaim(MarshalClaim(claims["exp"])) == Float(Round((created + ttl) / NANOS)) by {
      DateTrip((created + ttl) / NANOS);
    }
    WireTrip(claims, "Login");
    WireTrip(claims, "ID");
    WireTrip(claims, "exp");
  }

  lemma ReadBack(st: Settings, token: Token, data: UserClaims, used: Time, expiry: int)
    requires token.alg == st.alg && token.secret == st.secret && Magnitude(data.id) <= TWO53
    requires Carries(UnmarshalMap(token.payload), data, expiry)
    ensures Read(st, token, used) == if used < expiry * NANOS then Ok(data) else Err(ErrInvalidToken)
  {
    IdTrip(data.id);
  }

  /** The token gives back `data` before `expiry` and is refused from then on. */
  ghost predicate GivesBackUntil(st: Settings, token: Token, data: UserClaims, expiry: int) {
    forall used: Time :: Read(st, token, used) == if used < expiry then Ok(data) else Err(ErrInvalidToken)
  }

  lemma ReadBackAlways(st: Settings, token: Token, data: UserClaims, expiry: int)
    requires token.alg == st.alg && token.secret == st.secret && Magnitude(data.id) <= TWO53
    requires Carries(UnmarshalMap(token.payload), data, expiry)
    ensures GivesBackUntil(st, token, data, expiry * NANOS)
  {
    forall used: Time ensures Read(st, token, used) == if used < expiry * NANOS then Ok(data) else Err(ErrInvalidToken) {
      ReadBack(st, token, data, used, expiry);
    }
  }

  /** `token` was signed under `st` and carries `data` and the expiry of a token made at `created`. */
  predicate Genuine(st: Settings, token: Token, data: UserClaims, created: Time) {
    && token.alg == st.alg && token.secret == st.secret
    && Carries(UnmarshalMap(token.payload), data, Round((created + st.ttl) / NANOS))
  }

  lemma IssuedIsGenuine(st: Settings, data: UserClaims, created: Time)
    requires st.alg.HS256? && Magnitude(data.id) <= TWO53
    ensures Issue(st, data, created).Ok? && Genuine(st, Issue(st, data, created).value, data, created)
  {
    OnTheWire(data, created, st.ttl);
  }

  lemma GenuineGivesBack(st: Settings, token: Token, data: UserClaims, created: Time)
    requires Magnitude(data.id) <= TWO53
    ensures Genuine(st, token, data, created) ==> GivesBackUntil(st, token, data, ExpiryOf(st, created))
  {
    if Genuine(st, token, data, created) {
      ReadBackAlways(st, token, data, Round((created + st.ttl) / NANOS));
    }
  }

  /**
    For every login, every id up to 2^53 and every moment of use: the token issued gives back
    exactly the user it was issued for until it expires, and nothing from then on.
   */
  lemma ClaimsRoundTrip(st: Settings, data: UserClaims, created: Time)
    requires st.alg.HS256? && Magnitude(data.id) <= TWO53
    ensures Issue(st, data, created).Ok?
    ensures GivesBackUntil(st, Issue(st, data, created).value, data, ExpiryOf(st, created))
  {
    IssuedIsGenuine(st, data, created);
    GenuineGivesBack(st, Issue(st, data, created).value, data, created);
  }

  /**
    A token issued under one configuration and read under another gives back its user if and only
    if the two agree on algorithm and secret and the token has not expired; it is refused otherwise.
   */
  lemma ReadElsewhereIff(issuer: Settings, reader: Settings, data: UserClaims, created: Time, used: Time)
    requires Issue(issuer, data, created).Ok? && Magnitude(data.id) <= TWO53
    ensures Read(reader, Issue(issuer, data, created).value, used)
         == if issuer.alg == reader.alg && issuer.secret == reader.secret && used < ExpiryOf(issuer, created)
            then Ok(data) else Err(ErrInvalidToken)
  {
    var token := Issue(issuer, data, created).value;
    ClaimsRoundTrip(issuer, data, created);
    if issuer.alg == reader.alg && issuer.secret == reader.secret {
      SameKeysReadAlike(issuer, reader, token, used);
    } else {
      OthersRefuse(reader, token, used);
    }
  }

  lemma SameKeysReadAlike(issuer: Settings, reader: Settings, token: Token, used: Time)
    requires issuer.alg == reader.alg && issuer.secret == reader.secret
    ensures Read(reader, token, used) == Read(issuer, token, used)
  {
  }

  lemma OthersRefuse(reader: Settings, token: Token, used: Time)
    requires token.alg != reader.alg || token.secret != reader.secret
    ensures Read(reader, token, used) == Err(ErrInvalidToken)
  {
  }

  /** The number an unsigned JSON text stands for once it has been a float; none is taken as zero. */
  function Received(json: Json): int
    requires json.JsonNumber?
  {
    var n := Numbers.Parse(json.digits);
    if n.Some? then Round(n.value) else 0
  }

  /** The text of `key` is absent, or of the kind asked for. */
  predicate AbsentOrText(payload: map<string, Json>, key: string) {
    key in payload ==> payload[key].JsonString?
  }

  predicate AbsentOrNumber(payload: map<string, Json>, key: string) {
    key in payload ==> payload[key].JsonNumber?
  }

  /** An expiry claim that is there is a number of seconds not yet reached. */
  predicate Unexpired(payload: map<string, Json>, used: Time) {
    "exp" in payload ==> payload["exp"].JsonNumber? && used < Received(payload["exp"]) * 1_000_000_000
  }

  /**
    Whatever the token: it is read if and only if it was signed with the reader's own algorithm and
    secret, has not expired, and its login and id are of the right kind where present; what is
    absent reads as empty or zero, and every refusal is the same error.
   */
  lemma ReadsIff(reader: Settings, token: Token, used: Time)
    ensures var p := token.payload;
            var id := if "ID" in p && p["ID"].JsonNumber? then Printed(Received(p["ID"])) else 0;
            Read(reader, token, used)
            == if && token.alg == reader.alg && token.secret == reader.secret
                  && Unexpired(p, used) && AbsentOrText(p, "Login") && AbsentOrNumber(p, "ID")
                  && -9_223_372_036_854_775_808 <= id <= 9_223_372_036_854_775_807
               then Ok(UserClaims(if "Login" in p then p["Login"].text else "", id))
               else Err(ErrInvalidToken)
  {
    ExpiredIff(token.payload, used);
    LoginReads(token.payload);
    IdReads(token.payload);
  }

  lemma ExpiredIff(p: map<string, Json>, used: Time)
    ensures Expired(UnmarshalMap(p), used) <==> !Unexpired(p, used)
  {
  }

  lemma LoginReads(p: map<string, Json>)
    ensures ReadLogin(MarshalMap(UnmarshalMap(p)))
         == if AbsentOrText(p, "Login") then Ok(if "Login" in p then p["Login"].text else "") else Err(ErrInvalidToken)
  {
  }

  lemma IdReads(p: map<string, Json>)
    ensures var id := if "ID" in p && p["ID"].JsonNumber? then Printed(Received(p["ID"])) else 0;
            ReadId(MarshalMap(UnmarshalMap(p)))
            == if AbsentOrNumber(p, "ID") && InInt64(id) then Ok(id) else Err(ErrInvalidToken)
  {
    if "ID" in p && p["ID"].JsonNumber? {
      ParsePrint(Printed(Received(p["ID"])));
    }
  }

  /** A token expires within the last second of its configured lifetime, as long as seconds fit into 53 bits. */
  lemma ExpiresOnTime(st: Settings, created: Time)
    requires (created + st.ttl) / 1_000_000_000 <= 9_007_199_254_740_992
    ensures ExpiryOf(st, created) <= created + st.ttl < ExpiryOf(st, created) + 1_000_000_000
  {
    SmallExact((created + st.ttl) / 1_000_000_000);
  }
}
