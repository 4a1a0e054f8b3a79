/**
 * The POST handler of the seo-names route: a description, a reCAPTCHA
 * token (checked at score 0.5), an optional image count and language go
 * to generateSeoImageNames. The request body, the environment, the
 * siteverify answer and the Gemini reply are parameters.
 */
module SeoNamesRoute {
  import opened Wrappers
  import opened Gemini
  import opened RouteCommon

  /**
   * The `imageCount` field: absent (or null), a JSON number, or a string
   * together with what `Number` makes of it (None for NaN).
   */
  datatype CountField = NoCount | CountNumber(n: real) | CountText(text: string, asNumber: Option<real>)

  /** The parsed request body, or the message of the error `request.json()` throws. */
  datatype RequestBody =
    | Unreadable(reason: string)
    | Fields(description: Option<string>, recaptchaToken: Option<string>, imageCount: CountField, language: Option<string>)

  /** verifyRecaptcha of this route: the score must reach 0.5. */
  function VerifyRecaptcha(secretKey: Option<string>, reply: CaptchaReply): (ok: bool)
    ensures ok <==> secretKey.Some? && secretKey.value != "" && reply.Answer? && reply.success &&
                    reply.score.GetOr(0.0) >= 0.5
  {
    RecaptchaPasses(secretKey, reply, 0.5)
  }

  /** `imageCount && !isNaN(Number(imageCount)) ? Number(imageCount) : 10` */
  function Count(imageCount: CountField): (count: real)
    ensures imageCount.NoCount? ==> count == 10.0
    ensures imageCount.CountNumber? ==> count == if imageCount.n != 0.0 then imageCount.n else 10.0
    ensures imageCount.CountText? ==>
      count == if imageCount.text != "" && imageCount.asNumber.Some? then imageCount.asNumber.value else 10.0
  {
    match imageCount
    case NoCount => 10.0
    case CountNumber(n) => if n != 0.0 then n else 10.0
    case CountText(text, asNumber) => if text != "" && asNumber.Some? then asNumber.value else 10.0
  }

  /** The checks before generation all pass: a description, a token, and a passing captcha. */
  predicate Admitted(body: RequestBody, secretKey: Option<string>, captcha: CaptchaReply) {
    body.Fields? && Truthy(body.description) && Truthy(body.recaptchaToken) && VerifyRecaptcha(secretKey, captcha)
  }

  /** The Gemini call an admitted request makes. */
  function Names(body: RequestBody, apiKey: Option<string>, reply: GeminiReply): Result<seq<JsonValue>, GeminiError>
    requires body.Fields? && Truthy(body.description)
  {
    GenerateSeoImageNames(body.description.value, Count(body.imageCount), LanguageOrDefault(body.language), apiKey, reply)
  }

  /**
   * POST: an unreadable body or a failing generation gives 500 with the
   * error's message; then a missing description gives 400, a missing
   * token 400 and a failed captcha 403, in that order; otherwise 200 with
   * the names. No cookie is ever set.
   */
  function Post(body: RequestBody, secretKey: Option<string>, captcha: CaptchaReply,
                apiKey: Option<string>, reply: GeminiReply): (r: Response)
    ensures r.setCookie.None?
    ensures body.Unreadable? ==> r == Response(500, FailureBody(NamesGenerationFailed, body.reason), None)
    ensures body.Fields? && !Truthy(body.description) ==> r == Response(400, ErrorBody(DescriptionRequired), None)
    ensures body.Fields? && Truthy(body.description) && !Truthy(body.recaptchaToken) ==>
      r == Response(400, ErrorBody(CaptchaFailed), None)
    ensures body.Fields? && Truthy(body.description) && Truthy(body.recaptchaToken) && !VerifyRecaptcha(secretKey, captcha) ==>
      r == Response(403, ErrorBody(CaptchaFailed), None)
    ensures Admitted(body, secretKey, captcha) && Names(body, apiKey, reply).Ok? ==>
      r == Response(200, NamesBody(Names(body, apiKey, reply).value), None)
    ensures Admitted(body, secretKey, captcha) && Names(body, apiKey, reply).Err? ==>
      r == Response(500, FailureBody(NamesGenerationFailed, Message(Names(body, apiKey, reply).error)), None)
  {
    match body
    case Unreadable(reason) => Response(500, FailureBody(NamesGenerationFailed, reason), None)
    case Fields(description, recaptchaToken, imageCount, language) =>
      if !Truthy(description) then Response(400, ErrorBody(DescriptionRequired), None)
      else if !Truthy(recaptchaToken) then Response(400, ErrorBody(CaptchaFailed), None)
      else if !VerifyRecaptcha(secretKey, captcha) then Response(403, ErrorBody(CaptchaFailed), None)
      else
        var count := Count(imageCount);
        match GenerateSeoImageNames(description.value, count, LanguageOrDefault(language), apiKey, reply)
        case Ok(seoNames) => Response(200, NamesBody(seoNames), None)
        case Err(e) => Response(500, FailureBody(NamesGenerationFailed, Message(e)), None)
  }

  /**
   * The statuses: 200 exactly when every check passes and Gemini answers
   * with an array; 400 and 403 only for the request's own faults; nothing
   * else but 500.
   */
  lemma PostStatuses(body: RequestBody, secretKey: Option<string>, captcha: CaptchaReply,
                     apiKey: Option<string>, reply: GeminiReply)
    ensures var r := Post(body, secretKey, captcha, apiKey, reply);
      (r.status == 200 <==> Admitted(body, secretKey, captcha) && Names(body, apiKey, reply).Ok?) &&
      (r.status == 400 <==> body.Fields? && (!Truthy(body.description) || !Truthy(body.recaptchaToken))) &&
      (r.status == 403 <==> body.Fields? && Truthy(body.description) && Truthy(body.recaptchaToken) &&
                            !VerifyRecaptcha(secretKey, captcha)) &&
      r.status in {200, 400, 403, 500}
  {
  }

  /** A zero count, or one that is empty or not a number, becomes 10; a non-empty numeric string is taken as it is. */
  lemma CountDefaults(text: string, value: real)
    ensures Count(NoCount) == 10.0
    ensures Count(CountNumber(0.0)) == 10.0
    ensures Count(CountText("", Some(value))) == 10.0
    ensures Count(CountText(text, None)) == 10.0
    ensures text != "" ==> Count(CountText(text, Some(value))) == value
  {
  }

  /**
   * The string "0" is truthy and numeric, so unlike the number 0 it is not
   * replaced by 10: an admitted request with imageCount "0" gets no names.
   */
  lemma ZeroTextCountGivesNoNames(description: string, token: string, language: Option<string>,
                                  secretKey: Option<string>, captcha: CaptchaReply,
                                  apiKey: Option<string>, reply: GeminiReply)
    requires description != "" && token != ""
    requires var body := Fields(Some(description), Some(token), CountText("0", Some(0.0)), language);
      Admitted(body, secretKey, captcha) && Names(body, apiKey, reply).Ok?
    ensures var body := Fields(Some(description), Some(token), CountText("0", Some(0.0)), language);
      Post(body, secretKey, captcha, apiKey, reply) == Response(200, NamesBody([]), None)
  {
    var body := Fields(Some(description), Some(token), CountText("0", Some(0.0)), language);
    assert Count(body.imageCount) == 0.0;
    assert Trunc(0.0) == 0;
  }

  /** A successful response never holds more names than a non-negative integral count asks for. */
  lemma NamesWithinCount(body: RequestBody, secretKey: Option<string>, captcha: CaptchaReply,
                         apiKey: Option<string>, reply: GeminiReply, n: nat)
    requires body.Fields? && Count(body.imageCount) == n as real
    requires Post(body, secretKey, captcha, apiKey, reply).status == 200
    ensures |Post(body, secretKey, captcha, apiKey, reply).body.seoNames| <= n
  {
    PostStatuses(body, secretKey, captcha, apiKey, reply);
    assert Trunc(n as real) == n;
  }
}
