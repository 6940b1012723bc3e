/**
 * The signed session of apps/web/lib/auth.ts, and its renewal on use by
 * apps/web/middleware.ts. Times are milliseconds.
 */
module Session {
  import opened Prelude
  import opened Base64Url

  const HOUR_MS: int := 3_600_000
  const DAY_MS: int := 86_400_000
  const TTL_MS: int := 12 * HOUR_MS
  const KEPT_MS: int := 30 * DAY_MS
  const RENEW_AFTER_MS: int := DAY_MS
  const KEPT_AT_MOST_MS: int := 90 * DAY_MS

  datatype Role = Operator | Employee

  datatype SessionClaims = SessionClaims(
    role: Role,
    adminId: Option<string>,
    employeeId: Option<string>,
    organizationId: Option<string>,
    organizationSlug: Option<string>)

  /** What is signed. */
  datatype Payload = Payload(sub: string, claims: SessionClaims, iat: Option<int>, exp: int, kept: bool, since: Option<int>)

  datatype Session = Session(
    sub: string,
    claims: SessionClaims,
    kept: bool,
    issuedAt: Option<int>,
    signedInAt: Option<int>,
    expiresAt: int)

  /**
   * The platform's HMAC under the session secret, and JSON with UTF-8. JSON is only assumed to
   * read back what it wrote.
   */
  datatype Platform = Platform(
    mac: string -> seq<Byte>,
    encode: Payload -> seq<Byte>,
    decode: seq<Byte> -> Option<Payload>)

  ghost predicate JsonReadsBack(platform: Platform) {
    forall p :: platform.decode(platform.encode(p)) == Some(p)
  }

  function Min(a: int, b: int): int {
    if a < b then a else b
  }

  function Given(text: Option<string>): bool {
    text.Some? && text.value != ""
  }

  // ---- signing and verifying ----

  function PayloadFor(email: string, claims: SessionClaims, remember: bool, now: int, since: Option<int>): Payload {
    var since' := if since.Some? then since.value else now;
    var exp := if remember then Min(now + KEPT_MS, since' + KEPT_AT_MOST_MS) else now + TTL_MS;
    Payload(email, claims, Some(now), exp, remember, if remember then Some(since') else None)
  }

  function Token(platform: Platform, payload: Payload): string {
    var body := UrlText(platform.encode(payload));
    body + "." + UrlText(platform.mac(body))
  }

  function SignSession(platform: Platform, email: string, claims: SessionClaims, remember: bool, now: int, since: Option<int>): string {
    Token(platform, PayloadFor(email, claims, remember, now, since))
  }

  /** `split(".")` */
  function SplitDots(s: string): (parts: seq<string>)
    ensures parts != []
  {
    if s == "" then [""]
    else
      var parts := SplitDots(s[1..]);
      if s[0] == '.' then [""] + parts else [[s[0]] + parts[0]] + parts[1..]
  }

  /** An employee's scope is honoured only when it is complete. */
  predicate Complete(claims: SessionClaims) {
    claims.role.Operator? || (Given(claims.employeeId) && Given(claims.organizationId) && Given(claims.organizationSlug))
  }

  /** The claims a session of that payload carries. */
  function Honoured(claims: SessionClaims): SessionClaims {
    match claims.role
    case Employee => claims.(adminId := None)
    case Operator => SessionClaims(Operator, claims.adminId, None, None, None)
  }

  function SessionOf(payload: Payload): Session {
    Session(payload.sub, Honoured(payload.claims), payload.kept, payload.iat,
            if payload.since.Some? then payload.since else payload.iat, payload.exp)
  }

  function VerifySession(platform: Platform, token: string, now: int): Option<Session> {
    var parts := SplitDots(token);
    if token == "" || |parts| != 2 then None
    else
      match ReadUrlText(parts[1])
      case None => None
      case Some(sig) =>
        if sig != platform.mac(parts[0]) then None
        else
          match ReadUrlText(parts[0])
          case None => None
          case Some(bytes) =>
            match platform.decode(bytes)
            case None => None
            case Some(payload) =>
              if payload.exp == 0 || now > payload.exp || !Complete(payload.claims) then None
              else Some(SessionOf(payload))
  }

  lemma {:induction false} NoDotOnePart(s: string)
    requires '.' !in s
    ensures SplitDots(s) == [s]
  {
    if s != "" {
      NoDotOnePart(s[1..]);
      assert s == [s[0]] + s[1..];
    }
  }

  lemma {:induction false} OneDotTwoParts(a: string, b: string)
    requires '.' !in a && '.' !in b
    ensures SplitDots(a + "." + b) == [a, b]
  {
    var s := a + "." + b;
    if a == "" {
      assert s[1..] == b;
      NoDotOnePart(b);
    } else {
      assert s[0] == a[0] && s[1..] == a[1..] + "." + b;
      OneDotTwoParts(a[1..], b);
      assert [a[0]] + a[1..] == a;
    }
  }

  lemma TokenHasTwoParts(platform: Platform, payload: Payload)
    ensures var body := UrlText(platform.encode(payload));
            SplitDots(Token(platform, payload)) == [body, UrlText(platform.mac(body))]
  {
    var body := UrlText(platform.encode(payload));
    UrlTextIsClean(platform.encode(payload));
    UrlTextIsClean(platform.mac(body));
    OneDotTwoParts(body, UrlText(platform.mac(body)));
  }

  /**
   * Exactly which signed tokens verify: those not past their expiry (nor expiring at the epoch
   * itself) whose scope is complete; and they give back the subject, the scope and the times
   * that were signed.
   */
  lemma VerifiesWhatWasSigned(platform: Platform, payload: Payload, now: int)
    requires JsonReadsBack(platform)
    ensures VerifySession(platform, Token(platform, payload), now)
         == if payload.exp == 0 || now > payload.exp || !Complete(payload.claims) then None else Some(SessionOf(payload))
  {
    var body := UrlText(platform.encode(payload));
    TokenHasTwoParts(platform, payload);
    Base64UrlRoundTrip(platform.encode(payload));
    Base64UrlRoundTrip(platform.mac(body));
  }

  /** Text after the last dot is the last part. */
  lemma {:induction false} LastPart(a: string, b: string)
    requires '.' !in b
    ensures SplitDots(a + "." + b) == SplitDots(a) + [b]
  {
    var s := a + "." + b;
    if a == "" {
      OneDotTwoParts(a, b);
    } else {
      assert s[0] == a[0] && s[1..] == a[1..] + "." + b;
      LastPart(a[1..], b);
    }
  }

  lemma {:induction false} OnePartNoDot(s: string)
    requires |SplitDots(s)| == 1
    ensures SplitDots(s) == [s]
  {
    if s != "" {
      OnePartNoDot(s[1..]);
      assert s == [s[0]] + s[1..];
    }
  }

  lemma {:induction false} PartsHaveNoDots(s: string, k: nat)
    requires k < |SplitDots(s)|
    ensures '.' !in SplitDots(s)[k]
  {
    if s != "" {
      if s[0] != '.' {
        PartsHaveNoDots(s[1..], k);
      } else if k > 0 {
        PartsHaveNoDots(s[1..], k - 1);
      }
    }
  }

  lemma {:induction false} TwoPartsOneDot(s: string)
    requires |SplitDots(s)| == 2
    ensures s == SplitDots(s)[0] + "." + SplitDots(s)[1]
  {
    if s[0] == '.' {
      OnePartNoDot(s[1..]);
      assert s == [s[0]] + s[1..];
    } else {
      TwoPartsOneDot(s[1..]);
      assert s == [s[0]] + s[1..];
    }
  }

  /** A body, a dot, and base64url text of the body's own signature. */
  predicate IsSigned(platform: Platform, token: string, body: string, sig: string) {
    '.' !in body && '.' !in sig && token == body + "." + sig && ReadUrlText(sig) == Some(platform.mac(body))
  }

  /** The body is readable, not past its expiry, and its scope is complete. */
  predicate IsCurrent(platform: Platform, body: string, now: int) {
    var bytes := ReadUrlText(body);
    bytes.Some? && platform.decode(bytes.value).Some? &&
    var payload := platform.decode(bytes.value).value;
    payload.exp != 0 && now <= payload.exp && Complete(payload.claims)
  }

  /** The texts that verify, whoever wrote them: those that are a current body and its signature. */
  lemma OnlySignedBodiesVerify(platform: Platform, token: string, now: int)
    ensures VerifySession(platform, token, now).Some?
       <==> exists body, sig :: IsSigned(platform, token, body, sig) && IsCurrent(platform, body, now)
  {
    if VerifySession(platform, token, now).Some? {
      var parts := SplitDots(token);
      TwoPartsOneDot(token);
      PartsHaveNoDots(token, 0);
      PartsHaveNoDots(token, 1);
      assert IsSigned(platform, token, parts[0], parts[1]) && IsCurrent(platform, parts[0], now);
    }
    forall body, sig | IsSigned(platform, token, body, sig) && IsCurrent(platform, body, now)
      ensures VerifySession(platform, token, now).Some?
    {
      OneDotTwoParts(body, sig);
    }
  }

  /**
   * A signature cannot be moved: a text whose last part is the signature made for one body
   * verifies only when it has the body's own, whatever else stands before it.
   */
  lemma SignatureCannotBeMoved(platform: Platform, body: string, signed: string, now: int)
    requires VerifySession(platform, body + "." + UrlText(platform.mac(signed)), now).Some?
    ensures platform.mac(body) == platform.mac(signed)
  {
    var sig := UrlText(platform.mac(signed));
    UrlTextIsClean(platform.mac(signed));
    LastPart(body, sig);
    OnePartNoDot(body);
    Base64UrlRoundTrip(platform.mac(signed));
  }

  function ClaimsOf(session: Session): SessionClaims {
    match session.claims.role
    case Employee => session.claims.(adminId := None)
    case Operator =>
      SessionClaims(Operator, if Given(session.claims.adminId) then session.claims.adminId else None, None, None, None)
  }

  /** A scope with nothing in it that signing it again would drop. */
  predicate Plain(claims: SessionClaims) {
    Complete(claims) &&
    match claims.role
    case Employee => claims.adminId.None?
    case Operator =>
      (claims.adminId.None? || Given(claims.adminId)) && claims.employeeId.None? && claims.organizationId.None?
      && claims.organizationSlug.None?
  }

  /** Once through a session and back, a scope is plain; a plain one comes back as it was. */
  lemma ClaimsSurvive(payload: Payload)
    requires Complete(payload.claims)
    ensures Plain(ClaimsOf(SessionOf(payload)))
    ensures Plain(payload.claims) ==> ClaimsOf(SessionOf(payload)) == payload.claims
  {
  }

  // ---- what is honoured, and until when, by the fields alone ----

  /** An employee's scope names the person, the business and its slug; an operator's needs nothing. */
  predicate IsWholeScope(claims: SessionClaims) {
    claims.role == Operator ||
    (&& claims.employeeId.Some? && claims.employeeId.value != ""
     && claims.organizationId.Some? && claims.organizationId.value != ""
     && claims.organizationSlug.Some? && claims.organizationSlug.value != "")
  }

  /** A signed token is honoured exactly while it has not expired and its scope is whole; nobody gains a scope by it. */
  lemma SignedTokenMeans(platform: Platform, payload: Payload, now: int)
    requires JsonReadsBack(platform)
    ensures var session := VerifySession(platform, Token(platform, payload), now);
            && (session.Some? <==> payload.exp != 0 && now <= payload.exp && IsWholeScope(payload.claims))
            && (session.Some? ==>
                  var s := session.value;
                  && s.sub == payload.sub && s.claims.role == payload.claims.role && s.expiresAt == payload.exp
                  && s.kept == payload.kept && s.issuedAt == payload.iat
                  && s.signedInAt == (if payload.since == None then payload.iat else payload.since)
                  && (s.claims.role == Employee ==>
                        && s.claims.employeeId == payload.claims.employeeId && s.claims.organizationId == payload.claims.organizationId
                        && s.claims.organizationSlug == payload.claims.organizationSlug && s.claims.adminId == None)
                  && (s.claims.role == Operator ==>
                        && s.claims.adminId == payload.claims.adminId && s.claims.employeeId == None
                        && s.claims.organizationId == None && s.claims.organizationSlug == None))
  {
    VerifiesWhatWasSigned(platform, payload, now);
  }

  /** A sign-in that is not kept is honoured for twelve hours and no longer, and is never renewed. */
  lemma TwelveHoursUnkept(platform: Platform, email: string, claims: SessionClaims, now: int, since: Option<int>, at: int, v: Visit)
    requires JsonReadsBack(platform) && IsWholeScope(claims) && now > 0
    ensures var token := SignSession(platform, email, claims, false, now, since);
            && (VerifySession(platform, token, at).Some? <==> at <= now + 43_200_000)
            && (VerifySession(platform, token, at).Some? ==>
                  var s := VerifySession(platform, token, at).value;
                  s.sub == email && !s.kept && s.issuedAt == Some(now) && s.signedInAt == Some(now))
            && AfterVisit(platform, token, v) == token
  {
    SignedTokenMeans(platform, PayloadFor(email, claims, false, now, since), at);
    SignedTokenMeans(platform, PayloadFor(email, claims, false, now, since), v.verifiedAt);
  }

  /** A kept one is honoured for thirty days from its signing, and not past ninety from the typing of the code. */
  lemma ThirtyDaysKept(platform: Platform, email: string, claims: SessionClaims, now: int, since: int, at: int)
    requires JsonReadsBack(platform) && IsWholeScope(claims) && 0 < since <= now
    ensures VerifySession(platform, SignSession(platform, email, claims, true, now, Some(since)), at).Some?
       <==> at <= now + 2_592_000_000 && at <= since + 7_776_000_000
    ensures SignSession(platform, email, claims, true, now, None) == SignSession(platform, email, claims, true, now, Some(now))
  {
    SignedTokenMeans(platform, PayloadFor(email, claims, true, now, Some(since)), at);
  }

  /**
   * A visit signs a kept sign-in again, as of then and for the same moment of typing the code,
   * exactly when it is honoured, was signed more than a day before, and does not run to day ninety yet.
   */
  lemma VisitSignsAgain(platform: Platform, email: string, claims: SessionClaims, now: int, since: int, v: Visit)
    requires JsonReadsBack(platform) && Plain(claims) && 0 < since <= now
    ensures var token := SignSession(platform, email, claims, true, now, Some(since));
            var honoured := v.verifiedAt <= now + 2_592_000_000 && v.verifiedAt <= since + 7_776_000_000;
            var due := v.decidedAt > now + 86_400_000 && now + 2_592_000_000 < since + 7_776_000_000;
            var again := SignSession(platform, email, claims, true, v.signedAt, Some(since));
            AfterVisit(platform, token, v) == if honoured && due then again else token
  {
    var payload := PayloadFor(email, claims, true, now, Some(since));
    VerifiesWhatWasSigned(platform, payload, v.verifiedAt);
    ClaimsSurvive(payload);
  }

  // ---- renewal ----

  function NeedsRenewal(session: Session, now: int): bool {
    session.kept && session.issuedAt.Some? && session.signedInAt.Some?
    && now - session.issuedAt.value > RENEW_AFTER_MS
    && session.expiresAt < session.signedInAt.value + KEPT_AT_MOST_MS
  }

  /** The three times a visit reads the clock: verifying, deciding, signing. */
  datatype Visit = Visit(verifiedAt: int, decidedAt: int, signedAt: int)

  predicate InOrder(v: Visit) {
    v.verifiedAt <= v.decidedAt <= v.signedAt
  }

  /** The middleware: the cookie after a visit. */
  function AfterVisit(platform: Platform, token: string, v: Visit): string {
    Renewed(platform, token, VerifySession(platform, token, v.verifiedAt), v)
  }

  function Renewed(platform: Platform, token: string, verified: Option<Session>, v: Visit): string {
    match verified
    case None => token
    case Some(session) =>
      if NeedsRenewal(session, v.decidedAt)
      then SignSession(platform, session.sub, ClaimsOf(session), true, v.signedAt, session.signedInAt)
      else token
  }

  function AfterVisits(platform: Platform, token: string, visits: seq<Visit>): string
    decreases |visits|
  {
    if visits == [] then token else AfterVisits(platform, AfterVisit(platform, token, visits[0]), visits[1..])
  }

  /** A kept sign-in: when it was last signed, and when the person last typed their code. */
  datatype Life = Life(issuedAt: int, since: int)

  function Expiry(life: Life): int {
    Min(life.issuedAt + KEPT_MS, life.since + KEPT_AT_MOST_MS)
  }

  function KeptPayload(email: string, claims: SessionClaims, life: Life): Payload {
    Payload(email, claims, Some(life.issuedAt), Expiry(life), true, Some(life.since))
  }

  function KeptToken(platform: Platform, email: string, claims: SessionClaims, life: Life): string {
    Token(platform, KeptPayload(email, claims, life))
  }

  predicate Valid(life: Life, now: int) {
    Expiry(life) != 0 && now <= Expiry(life)
  }

  predicate Renews(life: Life, v: Visit) {
    && Valid(life, v.verifiedAt)
    && v.decidedAt - life.issuedAt > RENEW_AFTER_MS
    && Expiry(life) < life.since + KEPT_AT_MOST_MS
  }

  function LifeAfter(life: Life, v: Visit): Life {
    if Renews(life, v) then life.(issuedAt := v.signedAt) else life
  }

  function LifeAfterAll(life: Life, visits: seq<Visit>): Life
    decreases |visits|
  {
    if visits == [] then life else LifeAfterAll(LifeAfter(life, visits[0]), visits[1..])
  }

  /** A visit to a kept token moves its times and nothing else. */
  lemma VisitMovesOnlyTimes(platform: Platform, email: string, claims: SessionClaims, life: Life, v: Visit)
    requires JsonReadsBack(platform) && Plain(claims)
    ensures AfterVisit(platform, KeptToken(platform, email, claims, life), v) == KeptToken(platform, email, claims, LifeAfter(life, v))
  {
    var payload := KeptPayload(email, claims, life);
    VerifiesWhatWasSigned(platform, payload, v.verifiedAt);
    if Valid(life, v.verifiedAt) {
      RenewedMovesOnlyTimes(platform, email, claims, life, v);
    }
  }

  lemma RenewedMovesOnlyTimes(platform: Platform, email: string, claims: SessionClaims, life: Life, v: Visit)
    requires Plain(claims) && Valid(life, v.verifiedAt)
    ensures Renewed(platform, KeptToken(platform, email, claims, life), Some(SessionOf(KeptPayload(email, claims, life))), v)
         == KeptToken(platform, email, claims, LifeAfter(life, v))
  {
    ClaimsSurvive(KeptPayload(email, claims, life));
  }

  /** Through any number of visits: same person, same scope, same moment of signing in. */
  lemma {:induction false} VisitsMoveOnlyTimes(platform: Platform, email: string, claims: SessionClaims, life: Life, visits: seq<Visit>)
    requires JsonReadsBack(platform) && Plain(claims)
    ensures AfterVisits(platform, KeptToken(platform, email, claims, life), visits)
         == KeptToken(platform, email, claims, LifeAfterAll(life, visits))
    ensures LifeAfterAll(life, visits).since == life.since
    decreases |visits|
  {
    if visits != [] {
      VisitMovesOnlyTimes(platform, email, claims, life, visits[0]);
      VisitsMoveOnlyTimes(platform, email, claims, LifeAfter(life, visits[0]), visits[1..]);
    }
  }

  /** A new kept sign-in is such a token. */
  lemma SignInIsKept(platform: Platform, email: string, claims: SessionClaims, now: int)
    ensures SignSession(platform, email, claims, true, now, None) == KeptToken(platform, email, claims, Life(now, now))
  {
  }

  // ---- how long a kept sign-in lasts ----

  /** Ninety days after the code was typed it is over, whatever visits there were. */
  lemma NinetyDaysAreTheEnd(platform: Platform, email: string, claims: SessionClaims, now: int, visits: seq<Visit>, at: int)
    requires JsonReadsBack(platform) && Plain(claims) && at > now + 7_776_000_000
    ensures VerifySession(platform, AfterVisits(platform, SignSession(platform, email, claims, true, now, None), visits), at) == None
  {
    var life := Life(now, now);
    SignInIsKept(platform, email, claims, now);
    VisitsMoveOnlyTimes(platform, email, claims, life, visits);
    VerifiesWhatWasSigned(platform, KeptPayload(email, claims, LifeAfterAll(life, visits)), at);
  }

  /** Expiry never passes ninety days after the code was typed, and a renewal strictly extends it. */
  lemma RenewalExtends(life: Life, v: Visit)
    requires InOrder(v)
    ensures Expiry(LifeAfter(life, v)) <= life.since + KEPT_AT_MOST_MS
    ensures Renews(life, v) ==> Expiry(LifeAfter(life, v)) > Expiry(life)
    ensures !Renews(life, v) ==> LifeAfter(life, v) == life
  {
  }

  function Renewals(life: Life, visits: seq<Visit>): nat
    decreases |visits|
  {
    if visits == [] then 0
    else (if Renews(life, visits[0]) then 1 else 0) + Renewals(LifeAfter(life, visits[0]), visits[1..])
  }

  predicate AllInOrder(visits: seq<Visit>) {
    forall i :: 0 <= i < |visits| ==> InOrder(visits[i])
  }

  /** Each renewal puts the expiry more than a day further, so there is room for few. */
  lemma {:induction false} RoomForRenewals(life: Life, visits: seq<Visit>, n: nat)
    requires AllInOrder(visits)
    requires n <= 60 && (Expiry(life) < life.since + KEPT_AT_MOST_MS ==> Expiry(life) >= life.since + KEPT_MS + n * (DAY_MS + 1))
    ensures n + Renewals(life, visits) <= 60
    decreases |visits|
  {
    if visits != [] {
      var v := visits[0];
      assert InOrder(v);
      var life' := LifeAfter(life, v);
      if Renews(life, v) {
        assert n <= 59;
        assert (n + 1) * (DAY_MS + 1) == n * (DAY_MS + 1) + DAY_MS + 1;
        RoomForRenewals(life', visits[1..], n + 1);
      } else {
        RoomForRenewals(life, visits[1..], n);
      }
    }
  }

  /** At most sixty renewals follow one typing of the code. */
  lemma AtMostSixtyRenewals(now: int, visits: seq<Visit>)
    requires AllInOrder(visits)
    ensures Renewals(Life(now, now), visits) <= 60
  {
    RoomForRenewals(Life(now, now), visits, 0);
  }

  function EagerVisits(from: int, n: nat): seq<Visit>
    decreases n
  {
    if n == 0 then []
    else
      var t := from + DAY_MS + 1;
      [Visit(t, t, t)] + EagerVisits(t, n - 1)
  }

  lemma {:induction false} EagerVisitsAllRenew(life: Life, n: nat)
    requires life.issuedAt >= life.since > 0
    requires life.issuedAt + n * (DAY_MS + 1) + KEPT_MS < life.since + KEPT_AT_MOST_MS + DAY_MS + 1
    ensures AllInOrder(EagerVisits(life.issuedAt, n)) && Renewals(life, EagerVisits(life.issuedAt, n)) == n
    decreases n
  {
    if n > 0 {
      var visits := EagerVisits(life.issuedAt, n);
      assert n * (DAY_MS + 1) == (n - 1) * (DAY_MS + 1) + DAY_MS + 1;
      assert Renews(life, visits[0]);
      EagerVisitsAllRenew(LifeAfter(life, visits[0]), n - 1);
      assert visits[1..] == EagerVisits(LifeAfter(life, visits[0]).issuedAt, n - 1);
    }
  }

  /** And sixty can happen. */
  lemma SixtyRenewalsHappen(now: int)
    requires now > 0
    ensures AllInOrder(EagerVisits(now, 60)) && Renewals(Life(now, now), EagerVisits(now, 60)) == 60
  {
    EagerVisitsAllRenew(Life(now, now), 60);
  }

  /** Visits in time order, none more than `gap` after the one before (the first, after `last`). */
  predicate Within(visits: seq<Visit>, last: int, gap: int) {
    visits == [] ||
    (last <= visits[0].verifiedAt <= last + gap && InOrder(visits[0]) && Within(visits[1..], visits[0].verifiedAt, gap))
  }

  /** Every visit up to ninety days after the code was typed finds the sign-in valid. */
  predicate ValidThroughout(life: Life, visits: seq<Visit>)
    decreases |visits|
  {
    visits == [] ||
    ((visits[0].verifiedAt <= life.since + KEPT_AT_MOST_MS ==> Valid(life, visits[0].verifiedAt))
     && ValidThroughout(LifeAfter(life, visits[0]), visits[1..]))
  }

  lemma {:induction false} MonthlyUseStaysValid(life: Life, visits: seq<Visit>, last: int, gap: int)
    requires 0 < life.since <= last && life.since <= life.issuedAt && gap <= 29 * DAY_MS
    requires Expiry(life) >= Min(last + 29 * DAY_MS, life.since + KEPT_AT_MOST_MS)
    requires Within(visits, last, gap)
    ensures ValidThroughout(life, visits)
    decreases |visits|
  {
    if visits != [] {
      var v := visits[0];
      var life' := LifeAfter(life, v);
      if v.verifiedAt <= life.since + KEPT_AT_MOST_MS {
        assert Valid(life, v.verifiedAt);
      }
      MonthlyUseStaysValid(life', visits[1..], v.verifiedAt, gap);
    }
  }

  function TwoVisits(now: int, gap: int): seq<Visit> {
    var t := now + DAY_MS;
    [Visit(t, t, t), Visit(t + gap, t + gap, t + gap)]
  }

  lemma LateReturnFails(now: int, gap: int)
    requires now > 0 && gap > 29 * DAY_MS
    ensures exists visits :: Within(visits, now, gap) && !ValidThroughout(Life(now, now), visits)
  {
    var visits, life := TwoVisits(now, 29 * DAY_MS + 1), Life(now, now);
    assert visits[1..] == [visits[1]] && visits[1..][1..] == [];
    assert Within([], visits[1].verifiedAt, gap);
    assert Within([visits[1]], visits[0].verifiedAt, gap);
    assert LifeAfter(life, visits[0]) == life && !Valid(life, visits[1].verifiedAt);
    assert !ValidThroughout(life, [visits[1]]);
    assert Within(visits, now, gap) && !ValidThroughout(life, visits);
  }

  /**
   * How often one has to come back: a kept sign-in that is used with gaps of at most `gap` is
   * valid at every visit until day ninety, whatever the visits, exactly when `gap` is at most
   * 29 days. (A visit exactly a day after signing does not renew, and 29 days are left then.)
   */
  lemma TwentyNineDaysExactly(now: int, gap: int)
    requires now > 0 && gap >= 0
    ensures gap <= 29 * 86_400_000 <==> forall visits :: Within(visits, now, gap) ==> ValidThroughout(Life(now, now), visits)
  {
    if gap <= 29 * DAY_MS {
      forall visits | Within(visits, now, gap)
        ensures ValidThroughout(Life(now, now), visits)
      {
        MonthlyUseStaysValid(Life(now, now), visits, now, gap);
      }
    } else {
      LateReturnFails(now, gap);
    }
  }

  lemma {:induction false} ValidAtLast(life: Life, visits: seq<Visit>, v: Visit)
    requires ValidThroughout(life, visits + [v]) && v.verifiedAt <= life.since + KEPT_AT_MOST_MS
    ensures Valid(LifeAfterAll(life, visits), v.verifiedAt)
    decreases |visits|
  {
    if visits == [] {
      assert (visits + [v])[0] == v;
    } else {
      assert (visits + [v])[0] == visits[0] && (visits + [v])[1..] == visits[1..] + [v];
      ValidAtLast(LifeAfter(life, visits[0]), visits[1..], v);
    }
  }

  /**
   * "Keep me signed in", from the cookie's point of view: after any visits with gaps of at most
   * 29 days, a visit up to ninety days after the code was typed still finds the same person,
   * with the same scope, signed in at the same moment.
   */
  lemma StillSignedIn(platform: Platform, email: string, claims: SessionClaims, now: int, visits: seq<Visit>, v: Visit)
    requires JsonReadsBack(platform) && Plain(claims) && now > 0
    requires Within(visits + [v], now, 29 * DAY_MS) && v.verifiedAt <= now + KEPT_AT_MOST_MS
    ensures var session := VerifySession(platform, AfterVisits(platform, SignSession(platform, email, claims, true, now, None), visits), v.verifiedAt);
            session.Some? && session.value.sub == email && ClaimsOf(session.value) == claims && session.value.signedInAt == Some(now)
  {
    var life := Life(now, now);
    SignInIsKept(platform, email, claims, now);
    VisitsMoveOnlyTimes(platform, email, claims, life, visits);
    MonthlyUseStaysValid(life, visits + [v], now, 29 * DAY_MS);
    ValidAtLast(life, visits, v);
    var payload := KeptPayload(email, claims, LifeAfterAll(life, visits));
    VerifiesWhatWasSigned(platform, payload, v.verifiedAt);
    ClaimsSurvive(payload);
  }
}
