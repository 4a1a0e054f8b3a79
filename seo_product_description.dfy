/**
 * The POST handler of the seo-product-description route: signed-in users
 * only; free users get five descriptions a day, counted in the
 * `seo_daily_usage` cookie; then the description, the reCAPTCHA token
 * (checked at score 0.1) and Gemini. The sign-in, the pro status, the
 * cookie, the clock, the body, the siteverify answer and the Gemini reply
 * are parameters.
 */
module SeoProductDescriptionRoute {
  import opened Wrappers
  import opened Gemini
  import opened RouteCommon

  /** The free daily allowance. */
  const DailyLimit: int := 5

  /** The cookie's max-age: 24 hours in seconds. */
  const CookieMaxAge: int := 60 * 60 * 24

  /**
   * What JSON.parse makes of the cookie: a usage record, or anything else
   * (not JSON, null, or no record at all).
   */
  datatype CookieValue = Garbled | UsageRecord(date: string, count: int)

  /** The parsed request body, or the message of the error `request.json()` throws. */
  datatype RequestBody =
    | Unreadable(reason: string)
    | Fields(baseDescription: Option<string>, recaptchaToken: Option<string>, language: Option<string>)

  /** verifyRecaptcha of this route: the score must reach 0.1. */
  function VerifyRecaptcha(secretKey: Option<string>, reply: CaptchaReply): (ok: bool)
    ensures ok <==> secretKey.Some? && secretKey.value != "" && reply.Answer? && reply.success &&
                    reply.score.GetOr(0.0) >= 0.1
  {
    RecaptchaPasses(secretKey, reply, 0.1)
  }

  /** The usage the handler works with: the cookie's record if it is dated today, else a fresh one. */
  function StoredUsage(cookie: Option<CookieValue>, today: string): (u: DailyUsage)
    ensures u.date == today
    ensures cookie.Some? && cookie.value.UsageRecord? && cookie.value.date == today ==> u.count == cookie.value.count
    ensures !(cookie.Some? && cookie.value.UsageRecord? && cookie.value.date == today) ==> u.count == 0
  {
    if cookie.Some? && cookie.value.UsageRecord? && cookie.value.date == today
    then DailyUsage(cookie.value.date, cookie.value.count)
    else DailyUsage(today, 0)
  }

  /**
   * Reading the cookie: a fresh record for today, replaced by the cookie's
   * own record when it parses and is dated today.
   */
  method ReadUsage(cookie: Option<CookieValue>, today: string) returns (dailyUsage: DailyUsage)
    ensures dailyUsage == StoredUsage(cookie, today)
  {
    dailyUsage := DailyUsage(today, 0);
    if cookie.Some? && cookie.value.UsageRecord? && cookie.value.date == today {
      dailyUsage := DailyUsage(cookie.value.date, cookie.value.count);
    }
  }

  /** The record written back after a successful request: one more use today. */
  function CountedUsage(cookie: Option<CookieValue>, today: string): (u: DailyUsage)
    ensures u.date == today && u.count == StoredUsage(cookie, today).count + 1
  {
    var stored := StoredUsage(cookie, today);
    DailyUsage(stored.date, stored.count + 1)
  }

  /** `Math.max(0, 5 - count)` */
  function Remaining(count: int): (n: int)
    ensures n >= 0 && n >= DailyLimit - count
    ensures n == DailyLimit - count || n == 0
  {
    if DailyLimit - count > 0 then DailyLimit - count else 0
  }

  /** Signed in, and either pro or under the limit when the request is checked. */
  predicate WithinLimit(userId: Option<string>, isPro: bool, cookie: Option<CookieValue>, today: string) {
    Truthy(userId) && (isPro || StoredUsage(cookie, today).count < DailyLimit)
  }

  /** Every check before generation passes. */
  predicate Admitted(userId: Option<string>, isPro: bool, cookie: Option<CookieValue>, today: string,
                     body: RequestBody, secretKey: Option<string>, captcha: CaptchaReply) {
    WithinLimit(userId, isPro, cookie, today) && body.Fields? &&
    Truthy(body.baseDescription) && Truthy(body.recaptchaToken) && VerifyRecaptcha(secretKey, captcha)
  }

  /** The Gemini call an admitted request makes, in its language or English. */
  function Description(body: RequestBody, apiKey: Option<string>, reply: GeminiReply): Result<JsonValue, GeminiError>
    requires body.Fields? && Truthy(body.baseDescription)
  {
    GenerateSeoProductDescription(body.baseDescription.value, LanguageOrDefault(body.language), apiKey, reply)
  }

  /**
   * The response of a request turned away before generation, in the
   * handler's order: 401 when signed out, 429 for a free user at the
   * limit, 500 for an unreadable body, 400 without a description or a
   * token, 403 when the captcha fails; None when every check passes.
   */
  function Rejection(userId: Option<string>, isPro: bool, cookie: Option<CookieValue>, today: string,
                     body: RequestBody, secretKey: Option<string>, captcha: CaptchaReply): (r: Option<Response>)
    ensures r.None? <==> Admitted(userId, isPro, cookie, today, body, secretKey, captcha)
    ensures !Truthy(userId) ==> r == Some(Response(401, ErrorBody(AuthenticationRequired), None))
    ensures Truthy(userId) && !isPro && StoredUsage(cookie, today).count >= DailyLimit ==>
      r == Some(Response(429, LimitBody(DailyLimitExceeded, 0), None))
    ensures WithinLimit(userId, isPro, cookie, today) && body.Unreadable? ==>
      r == Some(Response(500, FailureBody(DescriptionGenerationFailed, body.reason), None))
    ensures WithinLimit(userId, isPro, cookie, today) && body.Fields? && !Truthy(body.baseDescription) ==>
      r == Some(Response(400, ErrorBody(BaseDescriptionRequired), None))
    ensures (WithinLimit(userId, isPro, cookie, today) && body.Fields? && Truthy(body.baseDescription) &&
      !Truthy(body.recaptchaToken)) ==>
      r == Some(Response(400, ErrorBody(CaptchaFailed), None))
    ensures (WithinLimit(userId, isPro, cookie, today) && body.Fields? && Truthy(body.baseDescription) &&
      Truthy(body.recaptchaToken) && !VerifyRecaptcha(secretKey, captcha)) ==>
      r == Some(Response(403, ErrorBody(CaptchaFailed), None))
  {
    if !Truthy(userId) then Some(Response(401, ErrorBody(AuthenticationRequired), None))
    else if !isPro && StoredUsage(cookie, today).count >= DailyLimit then
      Some(Response(429, LimitBody(DailyLimitExceeded, 0), None))
    else if body.Unreadable? then Some(Response(500, FailureBody(DescriptionGenerationFailed, body.reason), None))
    else if !Truthy(body.baseDescription) then Some(Response(400, ErrorBody(BaseDescriptionRequired), None))
    else if !Truthy(body.recaptchaToken) then Some(Response(400, ErrorBody(CaptchaFailed), None))
    else if !VerifyRecaptcha(secretKey, captcha) then Some(Response(403, ErrorBody(CaptchaFailed), None))
    else None
  }

  /**
   * The response to an admitted request: 500 with the error's message when
   * generation fails; else 200 with the description, to which a free user
   * also gets the remaining count, `isPro: false` and the cookie counting
   * one more use on the day read after generation.
   */
  function Generated(isPro: bool, cookie: Option<CookieValue>, body: RequestBody, apiKey: Option<string>,
                     reply: GeminiReply, today: string): (r: Response)
    requires body.Fields? && Truthy(body.baseDescription)
    ensures Description(body, apiKey, reply).Err? ==>
      r == Response(500, FailureBody(DescriptionGenerationFailed, Message(Description(body, apiKey, reply).error)), None)
    ensures Description(body, apiKey, reply).Ok? && isPro ==>
      r == Response(200, DescriptionBody(Description(body, apiKey, reply).value, None, None), None)
    ensures Description(body, apiKey, reply).Ok? && !isPro ==>
      r == Response(200, DescriptionBody(Description(body, apiKey, reply).value,
                                         Some(Remaining(StoredUsage(cookie, today).count + 1)), Some(false)),
                    Some(UsageCookie(CountedUsage(cookie, today), CookieMaxAge)))
  {
    match Description(body, apiKey, reply)
    case Err(e) => Response(500, FailureBody(DescriptionGenerationFailed, Message(e)), None)
    case Ok(seoDescription) =>
      if isPro then Response(200, DescriptionBody(seoDescription, None, None), None)
      else
        var usage := CountedUsage(cookie, today);
        Response(200, DescriptionBody(seoDescription, Some(Remaining(usage.count)), Some(false)),
                 Some(UsageCookie(usage, CookieMaxAge)))
  }

  /**
   * POST. `todayAtCheck` and `todayAtUpdate` are the two readings of
   * `new Date().toDateString()`, before the limit check and after
   * generation: a rejected request gets its Rejection, an admitted one
   * what Generated makes of the Gemini reply on the later date.
   */
  method Post(userId: Option<string>, isPro: bool, cookie: Option<CookieValue>, todayAtCheck: string,
              body: RequestBody, secretKey: Option<string>, captcha: CaptchaReply,
              apiKey: Option<string>, reply: GeminiReply, todayAtUpdate: string)
    returns (response: Response)
    ensures var rejection := Rejection(userId, isPro, cookie, todayAtCheck, body, secretKey, captcha);
      rejection.Some? ==> response == rejection.value
    ensures Admitted(userId, isPro, cookie, todayAtCheck, body, secretKey, captcha) ==>
      response == Generated(isPro, cookie, body, apiKey, reply, todayAtUpdate)
  {
    if !Truthy(userId) {
      return Response(401, ErrorBody(AuthenticationRequired), None);
    }
    if !isPro {
      var dailyUsage := ReadUsage(cookie, todayAtCheck);
      if dailyUsage.count >= DailyLimit {
        return Response(429, LimitBody(DailyLimitExceeded, 0), None);
      }
    }
    if body.Unreadable? {
      return Response(500, FailureBody(DescriptionGenerationFailed, body.reason), None);
    }
    var baseDescription, recaptchaToken, language := body.baseDescription, body.recaptchaToken, body.language;
    if !Truthy(baseDescription) {
      return Response(400, ErrorBody(BaseDescriptionRequired), None);
    }
    if !Truthy(recaptchaToken) {
      return Response(400, ErrorBody(CaptchaFailed), None);
    }
    var isValidToken := VerifyRecaptcha(secretKey, captcha);
    if !isValidToken {
      return Response(403, ErrorBody(CaptchaFailed), None);
    }
    var seoDescription := GenerateSeoProductDescription(baseDescription.value, LanguageOrDefault(language), apiKey, reply);
    if seoDescription.Err? {
      return Response(500, FailureBody(DescriptionGenerationFailed, Message(seoDescription.error)), None);
    }
    var updatedUsage: Option<DailyUsage> := None;
    var remainingCount: Option<int> := None;
    if !isPro {
      var dailyUsage := ReadUsage(cookie, todayAtUpdate);
      dailyUsage := dailyUsage.(count := dailyUsage.count + 1);
      updatedUsage := Some(dailyUsage);
      remainingCount := Some(Remaining(dailyUsage.count));
    }
    response := Response(200, DescriptionBody(seoDescription.value, remainingCount, if updatedUsage.Some? then Some(false) else None),
                         if updatedUsage.Some? then Some(UsageCookie(updatedUsage.value, CookieMaxAge)) else None);
  }

  /* ---- the daily limit over a day of requests ---- */

  /** The cookie the browser sends back after a response set it. */
  function Returned(u: DailyUsage): CookieValue {
    UsageRecord(u.date, u.count)
  }

  /**
   * The descriptions a free user obtains during one day: `succeeds[i]` is
   * whether the i-th request, once past the limit, passes its other checks
   * and gets a description; the browser keeps each cookie set, and the
   * clock stays on `today`.
   */
  function UsesOnOneDay(cookie: Option<CookieValue>, today: string, succeeds: seq<bool>): nat
    decreases |succeeds|
  {
    if |succeeds| == 0 then 0
    else if StoredUsage(cookie, today).count >= DailyLimit then UsesOnOneDay(cookie, today, succeeds[1..])
    else if succeeds[0] then 1 + UsesOnOneDay(Some(Returned(CountedUsage(cookie, today))), today, succeeds[1..])
    else UsesOnOneDay(cookie, today, succeeds[1..])
  }

  /**
   * However many requests are sent, a free user whose cookie does not
   * claim a negative count gets at most 5 descriptions a day, fewer by the
   * count already recorded for today.
   */
  lemma {:induction false} AtMostFiveUsesPerDay(cookie: Option<CookieValue>, today: string, succeeds: seq<bool>)
    requires StoredUsage(cookie, today).count >= 0
    ensures UsesOnOneDay(cookie, today, succeeds) <= Remaining(StoredUsage(cookie, today).count)
    decreases |succeeds|
  {
    if |succeeds| > 0 {
      var stored := StoredUsage(cookie, today);
      if stored.count >= DailyLimit {
        AtMostFiveUsesPerDay(cookie, today, succeeds[1..]);
      } else if succeeds[0] {
        var next := Some(Returned(CountedUsage(cookie, today)));
        assert StoredUsage(next, today).count == stored.count + 1;
        AtMostFiveUsesPerDay(next, today, succeeds[1..]);
      } else {
        AtMostFiveUsesPerDay(cookie, today, succeeds[1..]);
      }
    }
  }

  /** The bound is reached: when every request succeeds, the allowance is used up and no more. */
  lemma {:induction false} AllowanceIsUsedUp(cookie: Option<CookieValue>, today: string, succeeds: seq<bool>)
    requires 0 <= StoredUsage(cookie, today).count
    requires forall i :: 0 <= i < |succeeds| ==> succeeds[i]
    ensures var left := Remaining(StoredUsage(cookie, today).count);
      UsesOnOneDay(cookie, today, succeeds) == if |succeeds| <= left then |succeeds| else left
    decreases |succeeds|
  {
    if |succeeds| > 0 {
      var stored := StoredUsage(cookie, today);
      if stored.count < DailyLimit {
        var next := Some(Returned(CountedUsage(cookie, today)));
        assert StoredUsage(next, today).count == stored.count + 1;
        AllowanceIsUsedUp(next, today, succeeds[1..]);
      } else {
        AllowanceIsUsedUp(cookie, today, succeeds[1..]);
      }
    }
  }

  /**
   * A cookie from another day, or one that does not parse, counts as no
   * use today; one more successful request then leaves 4.
   */
  lemma StaleCookieResets(cookie: Option<CookieValue>, today: string)
    requires cookie.None? || cookie.value.Garbled? || cookie.value.date != today
    ensures StoredUsage(cookie, today) == DailyUsage(today, 0)
    ensures CountedUsage(cookie, today) == DailyUsage(today, 1)
    ensures Remaining(CountedUsage(cookie, today).count) == 4
  {
  }

  /**
   * The date is read again after generation: a request admitted just
   * before midnight with 4 uses recorded stores a count of 1 for the new
   * day.
   */
  lemma MidnightRequestStartsNewDay(count: int, before: string, after: string)
    requires before != after
    ensures CountedUsage(Some(UsageRecord(before, count)), after) == DailyUsage(after, 1)
  {
  }
}
