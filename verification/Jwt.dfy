/** `src/utils/jwt.ts`: the base64url codec (section 5 of RFC 4648) and HS256 tokens (section 7.1 of RFC 7515).
    The keyed hash, the JSON text and the number conversion are parameters. */
module Jwt {
  import opened Values
  import opened Seqs

  type byte = x: int | 0 <= x < 256
  type sextet = x: int | 0 <= x < 64

  // ---- Base64 ----

  function ToSextets(b: seq<byte>): seq<sextet> {
    if |b| == 0 then []
    else if |b| == 1 then [b[0] / 4, b[0] % 4 * 16]
    else if |b| == 2 then [b[0] / 4, b[0] % 4 * 16 + b[1] / 16, b[1] % 16 * 4]
    else [b[0] / 4, b[0] % 4 * 16 + b[1] / 16, b[1] % 16 * 4 + b[2] / 64, b[2] % 64] + ToSextets(b[3..])
  }

  /** The low bits of one sextet and the high bits of the next. */
  function Bits(a: int, b: int, up: int, down: int): int
    requires down > 0
  {
    a * up + b / down
  }

  /** A rest of two or three sextets gives one or two bytes; a single sextet gives none. */
  function FromSextets(s: seq<sextet>): seq<byte> {
    if |s| <= 1 then []
    else if |s| == 2 then [Bits(s[0], s[1], 4, 16)]
    else if |s| == 3 then [Bits(s[0], s[1], 4, 16), Bits(s[1] % 16, s[2], 16, 4)]
    else [Bits(s[0], s[1], 4, 16), Bits(s[1] % 16, s[2], 16, 4), Bits(s[2] % 4, s[3], 64, 1)] + FromSextets(s[4..])
  }

  function Letter(i: sextet): char {
    if i < 26 then 'A' + i as char
    else if i < 52 then 'a' + (i - 26) as char
    else if i < 62 then '0' + (i - 52) as char
    else if i == 62 then '+'
    else '/'
  }

  /** The value of a letter of the standard alphabet. */
  function Index(c: char): Option<sextet> {
    if 'A' <= c <= 'Z' then Some((c - 'A') as int)
    else if 'a' <= c <= 'z' then Some((c - 'a') as int + 26)
    else if '0' <= c <= '9' then Some((c - '0') as int + 52)
    else if c == '+' then Some(62)
    else if c == '/' then Some(63)
    else None
  }

  function Letters(s: seq<sextet>): string {
    seq(|s|, i requires 0 <= i < |s| => Letter(s[i]))
  }

  function Padding(n: nat): string {
    if n % 3 == 1 then "==" else if n % 3 == 2 then "=" else ""
  }

  /** `Buffer.from(b).toString('base64')` */
  function ToBase64(b: seq<byte>): string {
    Letters(ToSextets(b)) + Padding(|b|)
  }

  /** `Buffer.from(s, 'base64')`: characters outside the alphabet are skipped. */
  function FromBase64(s: string): seq<byte> {
    FromSextets(Indices(s))
  }

  function Indices(s: string): seq<sextet> {
    if s == "" then []
    else Indices(s[..|s| - 1]) + match Index(s[|s| - 1]) case Some(i) => [i] case None => []
  }

  /** `s.replace(/x/g, y)` for single characters */
  function Replace(s: string, x: char, y: char): string {
    seq(|s|, i requires 0 <= i < |s| => if s[i] == x then y else s[i])
  }

  function NotPad(): char -> bool {
    (c: char) => c != '='
  }

  function Base64Url(b: seq<byte>): string {
    Replace(Replace(Filter(NotPad(), ToBase64(b)), '+', '-'), '/', '_')
  }

  function FromBase64Url(s: string): seq<byte> {
    FromBase64(Replace(Replace(s, '-', '+'), '_', '/'))
  }

  lemma {:induction false} GroupRoundTrip(x: byte, y: byte, z: byte)
    ensures Bits(x / 4, x % 4 * 16 + y / 16, 4, 16) == x
    ensures Bits((x % 4 * 16 + y / 16) % 16, y % 16 * 4 + z / 64, 16, 4) == y
    ensures Bits((y % 16 * 4 + z / 64) % 4, z % 64, 64, 1) == z
  {
  }

  lemma {:induction false} FourSextets(a: sextet, b: sextet, c: sextet, d: sextet, s: seq<sextet>)
    ensures FromSextets([a, b, c, d] + s)
            == [Bits(a, b, 4, 16), Bits(b % 16, c, 16, 4), Bits(c % 4, d, 64, 1)] + FromSextets(s)
  {
    assert ([a, b, c, d] + s)[4..] == s;
  }

  lemma {:induction false} OneMoreGroup(x: byte, y: byte, z: byte, s: seq<sextet>)
    ensures FromSextets([x / 4, x % 4 * 16 + y / 16, y % 16 * 4 + z / 64, z % 64] + s) == [x, y, z] + FromSextets(s)
  {
    GroupRoundTrip(x, y, z);
    FourSextets(x / 4, x % 4 * 16 + y / 16, y % 16 * 4 + z / 64, z % 64, s);
  }

  lemma {:induction false} TwoSextets(a: sextet, b: sextet)
    ensures FromSextets([a, b]) == [Bits(a, b, 4, 16)]
  {
  }

  lemma {:induction false} ThreeSextets(a: sextet, b: sextet, c: sextet)
    ensures FromSextets([a, b, c]) == [Bits(a, b, 4, 16), Bits(b % 16, c, 16, 4)]
  {
  }

  lemma {:induction false} PairRoundTrip(x: byte, y: byte)
    ensures Bits(x / 4, x % 4 * 16, 4, 16) == x
    ensures Bits(x / 4, x % 4 * 16 + y / 16, 4, 16) == x
    ensures Bits((x % 4 * 16 + y / 16) % 16, y % 16 * 4, 16, 4) == y
  {
  }

  lemma {:induction false} LastGroup(b: seq<byte>)
    requires |b| < 3
    ensures FromSextets(ToSextets(b)) == b
  {
    if |b| == 1 {
      OneByte(b[0]);
      assert b == [b[0]];
    } else if |b| == 2 {
      TwoBytes(b[0], b[1]);
      assert b == [b[0], b[1]];
    }
  }

  lemma {:induction false} OneByte(x: byte)
    ensures FromSextets(ToSextets([x])) == [x]
  {
    assert ToSextets([x]) == [x / 4, x % 4 * 16];
    TwoSextets(x / 4, x % 4 * 16);
    PairRoundTrip(x, 0);
  }

  lemma {:induction false} TwoBytes(x: byte, y: byte)
    ensures FromSextets(ToSextets([x, y])) == [x, y]
  {
    assert ToSextets([x, y]) == [x / 4, x % 4 * 16 + y / 16, y % 16 * 4];
    ThreeSextets(x / 4, x % 4 * 16 + y / 16, y % 16 * 4);
    PairRoundTrip(x, y);
  }

  lemma {:induction false} ThreeAndRest(b: seq<byte>)
    requires |b| >= 3
    ensures b == [b[0], b[1], b[2]] + b[3..]
  {
  }

  lemma {:induction false} SextetsRoundTrip(b: seq<byte>)
    ensures FromSextets(ToSextets(b)) == b
  {
    if |b| < 3 {
      LastGroup(b);
    } else {
      SextetsRoundTrip(b[3..]);
      OneMoreGroup(b[0], b[1], b[2], ToSextets(b[3..]));
      ThreeAndRest(b);
    }
  }

  lemma {:induction false} LetterIndex(i: sextet)
    ensures Index(Letter(i)) == Some(i)
    ensures Letter(i) != '=' && Letter(i) != '-' && Letter(i) != '_' && Letter(i) != '.'
  {
  }

  lemma {:induction false} LettersIndices(s: seq<sextet>)
    ensures Indices(Letters(s)) == s
  {
    if s != [] {
      var t := s[..|s| - 1];
      LettersIndices(t);
      LetterIndex(s[|s| - 1]);
      assert Letters(s)[..|s| - 1] == Letters(t);
      assert s == t + [s[|s| - 1]];
    }
  }

  /** Removing the padding leaves the letters. */
  lemma {:induction false} UnpaddedLetters(b: seq<byte>)
    ensures Filter(NotPad(), ToBase64(b)) == Letters(ToSextets(b))
  {
    FilterAppend(NotPad(), Letters(ToSextets(b)), Padding(|b|));
    LettersStay(ToSextets(b));
    PaddingGoes(|b|);
    Whole(Letters(ToSextets(b)));
  }

  lemma {:induction false} LettersStay(s: seq<sextet>)
    ensures Filter(NotPad(), Letters(s)) == Letters(s)
  {
    forall i | 0 <= i < |s| ensures NotPad()(Letters(s)[i]) { LetterIndex(s[i]); }
    FilterAll(NotPad(), Letters(s));
  }

  lemma {:induction false} PaddingGoes(n: nat)
    ensures Filter(NotPad(), Padding(n)) == ""
  {
    assert forall i :: 0 <= i < |Padding(n)| ==> Padding(n)[i] == '=';
    FilterNone(NotPad(), Padding(n));
  }

  lemma {:induction false} SwapBack(s: seq<sextet>)
    ensures Replace(Replace(Replace(Replace(Letters(s), '+', '-'), '/', '_'), '-', '+'), '_', '/') == Letters(s)
  {
    forall i | 0 <= i < |s|
      ensures Replace(Replace(Replace(Replace(Letters(s), '+', '-'), '/', '_'), '-', '+'), '_', '/')[i] == Letters(s)[i]
    {
      LetterIndex(s[i]);
    }
  }

  /** Decoding undoes encoding, for byte strings of every length. */
  lemma {:induction false} DecodeEncode(b: seq<byte>)
    ensures FromBase64Url(Base64Url(b)) == b
  {
    UnpaddedLetters(b);
    SwapBack(ToSextets(b));
    LettersIndices(ToSextets(b));
    SextetsRoundTrip(b);
  }

  predicate UrlSafe(c: char) {
    'A' <= c <= 'Z' || 'a' <= c <= 'z' || '0' <= c <= '9' || c == '-' || c == '_'
  }

  lemma {:induction false} SextetCount(b: seq<byte>)
    ensures |ToSextets(b)| == (|b| * 4 + 2) / 3
  {
    if |b| >= 3 { SextetCount(b[3..]); }
  }

  /** The encoding has only URL-safe characters, so no '.', and no padding. */
  lemma {:induction false} EncodingIsUrlSafe(b: seq<byte>)
    ensures forall i :: 0 <= i < |Base64Url(b)| ==> UrlSafe(Base64Url(b)[i])
    ensures '.' !in Base64Url(b)
    ensures |Base64Url(b)| == (|b| * 4 + 2) / 3
  {
    UnpaddedLetters(b);
    SextetCount(b);
    var s := ToSextets(b);
    forall i | 0 <= i < |s| ensures UrlSafe(Base64Url(b)[i]) { LetterIndex(s[i]); }
  }

  // ---- Tokens ----

  /** A JavaScript value made of JSON's parts; `Undefined` is a member or item that is undefined. */
  datatype Json =
    | Undefined
    | Null
    | Bool(b: bool)
    | Num(n: int)
    | Str(s: string)
    | Array(items: seq<Json>)
    | Object(claims: Claims)

  type Claims = map<string, Json>

  predicate Truthy(v: Json) {
    match v
    case Undefined => false
    case Null => false
    case Bool(b) => b
    case Num(n) => n != 0
    case Str(s) => s != ""
    case _ => true
  }

  /** The HMAC under the configured secret, JSON.stringify and JSON.parse over UTF-8, and Number(). */
  datatype Env = Env(hmac: string -> seq<byte>, stringify: Claims -> seq<byte>, parse: seq<byte> -> Option<Json>,
                     number: Json -> Option<int>)

  /** The value that JSON text of v stands for: members that are undefined are left out, at every depth, and items
      that are undefined become null. */
  function Plain(v: Json): Json {
    match v
    case Array(items) =>
      Array(seq(|items|, i requires 0 <= i < |items| => if items[i].Undefined? then Json.Null else Plain(items[i])))
    case Object(claims) => Object(map k | k in claims && !claims[k].Undefined? :: Plain(claims[k]))
    case _ => v
  }

  function Printed(c: Claims): (r: Claims)
    ensures forall k :: k in r <==> k in c && !c[k].Undefined?
    ensures forall k :: k in r ==> r[k] == Plain(c[k])
  {
    map k | k in c && !c[k].Undefined? :: Plain(c[k])
  }

  /** Parsing printed claims gives the claims that were printed. */
  ghost predicate EnvOk(env: Env) {
    && (forall c :: (env.parse)((env.stringify)(c)) == Some(Object(Printed(c))) && (env.stringify)(c) != [])
    && (forall s :: (env.hmac)(s) != [])
    && (forall n :: (env.number)(Json.Num(n)) == Some(n))
  }

  /** The parts of `token.split('.')` */
  function Split(s: string): (parts: seq<string>)
    ensures parts != []
    decreases |s|
  {
    var i := IndexWhere(Dot(), s);
    if i == |s| then [s] else [s[..i]] + Split(s[i + 1..])
  }

  function Dot(): char -> bool {
    (c: char) => c == '.'
  }

  const HEADER: Claims := map["alg" := Json.Str("HS256"), "typ" := Json.Str("JWT")]

  function Body(payload: Claims, now: int, ttl: int): Claims {
    map["iat" := Json.Num(now), "exp" := Json.Num(now + ttl)] + payload
  }

  function SigningInput(env: Env, payload: Claims, now: int, ttl: int): string {
    Base64Url((env.stringify)(HEADER)) + "." + Base64Url((env.stringify)(Body(payload, now, ttl)))
  }

  function Signature(env: Env, data: string): string {
    Base64Url((env.hmac)(data))
  }

  function SignJwt(env: Env, payload: Claims, now: int, ttl: int): string {
    var data := SigningInput(env, payload, now, ttl);
    data + "." + Signature(env, data)
  }

  datatype Verdict = Invalid | Valid(payload: Json)

  /** `payload.exp && now > payload.exp` */
  predicate Expired(env: Env, claims: Claims, now: int) {
    var exp := if "exp" in claims then claims["exp"] else Json.Undefined;
    Truthy(exp) && (env.number)(exp).Some? && now > (env.number)(exp).value
  }

  function VerifyJwt(env: Env, token: string, now: int): Verdict {
    var parts := Split(token);
    if |parts| < 3 || parts[0] == "" || parts[1] == "" || parts[2] == "" then Invalid
    else if Signature(env, parts[0] + "." + parts[1]) != parts[2] then Invalid
    else
      match (env.parse)(FromBase64Url(parts[1]))
      case None => Invalid
      case Some(Undefined) => Invalid
      case Some(Null) => Invalid
      case Some(Object(c)) => if Expired(env, c, now) then Invalid else Valid(Object(c))
      case Some(v) => Valid(v)
  }

  lemma {:induction false} SplitAt(a: string, b: string)
    requires '.' !in a
    ensures Split(a + "." + b) == [a] + Split(b)
  {
    var s := a + "." + b;
    var i := IndexWhere(Dot(), s);
    assert Dot()(s[|a|]);
    assert i <= |a|;
    assert forall k :: 0 <= k < |a| ==> s[k] == a[k];
    assert s[..i] == a && s[i + 1..] == b;
  }

  lemma {:induction false} SplitWhole(a: string)
    requires '.' !in a
    ensures Split(a) == [a]
  {
    var i := IndexWhere(Dot(), a);
    assert forall k :: 0 <= k < |a| ==> a[k] in a;
  }

  /** A signed token splits into exactly its three parts. */
  lemma {:induction false} TokenParts(env: Env, payload: Claims, now: int, ttl: int)
    ensures
      var data := SigningInput(env, payload, now, ttl);
      Split(SignJwt(env, payload, now, ttl))
      == [Base64Url((env.stringify)(HEADER)), Base64Url((env.stringify)(Body(payload, now, ttl))), Signature(env, data)]
  {
    var h, p := Base64Url((env.stringify)(HEADER)), Base64Url((env.stringify)(Body(payload, now, ttl)));
    var s := Signature(env, h + "." + p);
    EncodingIsUrlSafe((env.stringify)(HEADER));
    EncodingIsUrlSafe((env.stringify)(Body(payload, now, ttl)));
    EncodingIsUrlSafe((env.hmac)(h + "." + p));
    assert SignJwt(env, payload, now, ttl) == h + "." + (p + "." + s);
    SplitAt(h, p + "." + s);
    SplitAt(p, s);
    SplitWhole(s);
    assert [h] + ([p] + [s]) == [h, p, s];
  }

  /** A value that JSON can hold as it is: nothing in it is undefined. */
  predicate Pure(v: Json) {
    match v
    case Undefined => false
    case Array(items) => forall i :: 0 <= i < |items| ==> Pure(items[i])
    case Object(claims) => forall k :: k in claims ==> Pure(claims[k])
    case _ => true
  }

  /** JSON text stands for the value itself exactly when nothing in it is undefined; and what it stands for is
      such a value. */
  lemma {:induction false} PlainIffPure(v: Json)
    requires !v.Undefined?
    ensures Plain(v) == v <==> Pure(v)
    ensures Pure(Plain(v))
  {
    match v
    case Array(items) =>
      forall i | 0 <= i < |items| && !items[i].Undefined?
        ensures (Plain(items[i]) == items[i] <==> Pure(items[i])) && Pure(Plain(items[i]))
      {
        PlainIffPure(items[i]);
      }
      if Plain(v) == v {
        forall i | 0 <= i < |items| ensures Pure(items[i]) { assert Plain(v).items[i] == items[i]; }
      }
    case Object(claims) =>
      forall k | k in claims && !claims[k].Undefined?
        ensures (Plain(claims[k]) == claims[k] <==> Pure(claims[k])) && Pure(Plain(claims[k]))
      {
        PlainIffPure(claims[k]);
      }
      if Plain(v) == v {
        forall k | k in claims ensures Pure(claims[k]) {
          assert k in Plain(v).claims && Plain(v).claims[k] == claims[k];
        }
      }
      if Pure(v) {
        forall k | k in claims ensures !claims[k].Undefined? && Plain(claims[k]) == claims[k] {
          assert Pure(claims[k]);
        }
        assert Plain(v).claims == claims;
      }
    case _ =>
  }

  /** Verifying a signed token gives back its body as printed, exactly while the body has not expired. */
  lemma {:induction false} VerifySigned(env: Env, payload: Claims, at: int, ttl: int, now: int)
    requires EnvOk(env)
    ensures
      var body := Printed(Body(payload, at, ttl));
      VerifyJwt(env, SignJwt(env, payload, at, ttl), now)
      == if Expired(env, body, now) then Invalid else Valid(Object(body))
  {
    TokenParts(env, payload, at, ttl);
    var body := Body(payload, at, ttl);
    DecodeEncode((env.stringify)(body));
    EncodingIsUrlSafe((env.stringify)(HEADER));
    EncodingIsUrlSafe((env.stringify)(body));
    EncodingIsUrlSafe((env.hmac)(SigningInput(env, payload, at, ttl)));
    assert (env.stringify)(HEADER) != [] && (env.stringify)(body) != []
           && (env.hmac)(SigningInput(env, payload, at, ttl)) != [];
  }

  /** The claims a verified token carries: every claim of the payload that is not undefined, with its value as
      JSON gives it, and beside them only the default iat and exp, each where the payload does not name it. */
  lemma {:induction false} ClaimsArrive(payload: Claims, at: int, ttl: int, k: string)
    ensures
      var body := Printed(Body(payload, at, ttl));
      && (k in body <==> if k in payload then payload[k] != Json.Undefined else k == "iat" || k == "exp")
      && (k in body && k in payload ==> body[k] == Plain(payload[k]))
      && (k !in payload ==> (k == "iat" ==> body[k] == Json.Num(at)) && (k == "exp" ==> body[k] == Json.Num(at + ttl)))
  {
  }

  /** The expiry a signed token has: the payload's own exp, even an undefined one, before the default. */
  function ExpiryOf(payload: Claims, at: int, ttl: int): Json {
    if "exp" in payload then payload["exp"] else Json.Num(at + ttl)
  }

  /** When a signed token is accepted: always if its expiry is undefined, null, 0, false, an empty string or
      no number; otherwise up to and including that second. */
  lemma {:induction false} AcceptedIff(env: Env, payload: Claims, at: int, ttl: int, now: int)
    requires EnvOk(env)
    ensures
      var exp := Plain(ExpiryOf(payload, at, ttl));
      VerifyJwt(env, SignJwt(env, payload, at, ttl), now).Valid?
      <==> !Truthy(exp) || (env.number)(exp).None? || now <= (env.number)(exp).value
  {
    VerifySigned(env, payload, at, ttl, now);
    ClaimsArrive(payload, at, ttl, "exp");
  }

  /** A token whose payload sets no expiry of its own is accepted up to and including its expiry second; one
      whose expiry second is 0, or whose payload sets exp to undefined, is accepted at any time. */
  lemma {:induction false} AcceptedUntilExpiry(env: Env, payload: Claims, at: int, ttl: int, now: int)
    requires EnvOk(env)
    ensures "exp" !in payload ==>
              (VerifyJwt(env, SignJwt(env, payload, at, ttl), now).Valid? <==> now <= at + ttl || at + ttl == 0)
    ensures "exp" in payload && payload["exp"] == Json.Undefined
            ==> VerifyJwt(env, SignJwt(env, payload, at, ttl), now).Valid?
  {
    AcceptedIff(env, payload, at, ttl, now);
  }

  lemma {:induction false} SplitPrefix(a: string, b: string)
    ensures |Split(a + "." + b)| > |Split(a)| && Split(a + "." + b)[..|Split(a)|] == Split(a)
    decreases |a|
  {
    var i := IndexWhere(Dot(), a);
    if i == |a| {
      assert forall k :: 0 <= k < |a| ==> !Dot()(a[k]);
      SplitAt(a, b);
    } else {
      var x, y := a[..i], a[i + 1..];
      FirstPart(a, i, b);
      SplitAt(x, y);
      SplitAt(x, y + "." + b);
      SplitPrefix(y, b);
      LongerPrefix(x, Split(y), Split(y + "." + b));
    }
  }

  lemma {:induction false} FirstPart(a: string, i: nat, b: string)
    requires i == IndexWhere(Dot(), a) < |a|
    ensures '.' !in a[..i] && a == a[..i] + "." + a[i + 1..]
    ensures a + "." + b == a[..i] + "." + (a[i + 1..] + "." + b)
  {
    forall k | 0 <= k < i ensures a[k] != '.' { assert !Dot()(a[k]); }
    assert Dot()(a[i]);
    Around(a, i, '.');
    Regroup(a[..i], ".", a[i + 1..], ".", b);
  }

  lemma {:induction false} Regroup<T>(a: seq<T>, x: seq<T>, b: seq<T>, y: seq<T>, c: seq<T>)
    ensures a + x + b + y + c == a + x + (b + y + c)
  {
  }

  lemma {:induction false} LongerPrefix(x: string, s: seq<string>, t: seq<string>)
    requires |s| < |t| && t[..|s|] == s
    ensures |[x] + s| < |[x] + t| && ([x] + t)[..|[x] + s|] == [x] + s
  {
  }

  /** verifyJwt looks at the first three parts only: anything after a further '.' changes nothing. */
  lemma {:induction false} OnlyThreePartsCount(env: Env, token: string, rest: string, now: int)
    requires |Split(token)| >= 3
    ensures VerifyJwt(env, token + "." + rest, now) == VerifyJwt(env, token, now)
  {
    SplitPrefix(token, rest);
    var s, t := Split(token + "." + rest), Split(token);
    assert s[..|t|][0] == t[0] && s[..|t|][1] == t[1] && s[..|t|][2] == t[2];
  }

  lemma {:induction false} SplitJoins(s: string)
    ensures s == Join(Split(s))
    decreases |s|
  {
    var i := IndexWhere(Dot(), s);
    if i < |s| {
      SplitJoins(s[i + 1..]);
      assert s == s[..i] + "." + s[i + 1..];
      assert ([s[..i]] + Split(s[i + 1..]))[1..] == Split(s[i + 1..]);
    }
  }

  function Join(parts: seq<string>): string
    requires parts != []
  {
    if |parts| == 1 then parts[0] else parts[0] + "." + Join(parts[1..])
  }

  /** Whatever is accepted begins with some data, a '.', and the signature of that data, and the payload is
      what the second part of the data decodes to. */
  lemma {:induction false} AcceptedIsSigned(env: Env, token: string, now: int)
    requires VerifyJwt(env, token, now).Valid?
    ensures
      var parts := Split(token);
      && |parts| >= 3
      && var data := parts[0] + "." + parts[1];
      && data + "." + Signature(env, data) <= token
      && (env.parse)(FromBase64Url(parts[1])) == Some(VerifyJwt(env, token, now).payload)
  {
    SplitJoins(token);
    var parts := Split(token);
    JoinThree(parts);
    assert parts[2] == Signature(env, parts[0] + "." + parts[1]);
  }

  lemma {:induction false} ThreeAndMore(a: string, b: string, c: string, t: string)
    requires c <= t
    ensures a + "." + b + "." + c <= a + "." + (b + "." + t)
  {
    var x := a + "." + b + ".";
    assert x + t == a + "." + (b + "." + t);
    assert (x + t)[..|x + c|] == x + t[..|c|];
  }

  lemma {:induction false} JoinMore(parts: seq<string>)
    requires |parts| >= 2
    ensures Join(parts) == parts[0] + "." + Join(parts[1..])
  {
  }

  lemma {:induction false} JoinStarts(parts: seq<string>)
    requires parts != []
    ensures parts[0] <= Join(parts)
  {
    if |parts| > 1 { JoinMore(parts); }
  }

  lemma {:induction false} JoinTwice(parts: seq<string>)
    requires |parts| >= 3
    ensures Join(parts) == parts[0] + "." + (parts[1] + "." + Join(parts[2..]))
  {
    JoinMore(parts);
    JoinMore(parts[1..]);
    assert parts[1..][1..] == parts[2..];
  }

  lemma {:induction false} JoinThree(parts: seq<string>)
    requires |parts| >= 3
    ensures parts[0] + "." + parts[1] + "." + parts[2] <= Join(parts)
  {
    JoinTwice(parts);
    JoinStarts(parts[2..]);
    ThreeAndMore(parts[0], parts[1], parts[2], Join(parts[2..]));
  }
}
