/**
 * What the two SEO API routes share: the reCAPTCHA check (each route has
 * its own copy, differing only in the score threshold), JavaScript
 * truthiness of the request fields, the `language || 'en'` default and
 * the shape of the JSON responses.
 */
module RouteCommon {
  import opened Wrappers
  import opened Gemini

  /**
   * The outcome of the siteverify request: the fetch (or reading its JSON)
   * throws, the response is not OK, or the JSON arrives with its `success`
   * flag and, when present, its `score`.
   */
  datatype CaptchaReply = FetchFails | NotOk | Answer(success: bool, score: Option<real>)

  /**
   * verifyRecaptcha with the given threshold: an unset or empty secret, a
   * failed fetch, a non-OK response and an unsuccessful answer all fail; a
   * successful answer passes when its score (0 when absent) reaches the
   * threshold.
   */
  function RecaptchaPasses(secretKey: Option<string>, reply: CaptchaReply, threshold: real): (ok: bool)
    ensures ok <==> secretKey.Some? && secretKey.value != "" && reply.Answer? && reply.success &&
                    reply.score.GetOr(0.0) >= threshold
  {
    if secretKey.None? || secretKey.value == "" then false
    else match reply
      case FetchFails => false
      case NotOk => false
      case Answer(success, score) =>
        if !success then false
        else
          var s := if score.Some? then score.value else 0.0;
          s >= threshold
  }

  /** A positive threshold rejects a successful answer that carries no score. */
  lemma ScorelessAnswerFails(secretKey: Option<string>, threshold: real)
    requires threshold > 0.0
    ensures !RecaptchaPasses(secretKey, Answer(true, None), threshold)
  {
  }

  /** Raising the threshold only rejects more answers. */
  lemma ThresholdMonotone(secretKey: Option<string>, reply: CaptchaReply, low: real, high: real)
    requires low <= high
    ensures RecaptchaPasses(secretKey, reply, high) ==> RecaptchaPasses(secretKey, reply, low)
  {
  }

  /** A string request field is truthy when present and non-empty. */
  predicate Truthy(field: Option<string>) {
    field.Some? && field.value != ""
  }

  /** `language || 'en'` */
  function LanguageOrDefault(language: Option<string>): (lang: string)
    ensures Truthy(language) ==> lang == language.value
    ensures !Truthy(language) ==> lang == "en"
  {
    if Truthy(language) then language.value else "en"
  }

  /** The usage record kept in the `seo_daily_usage` cookie. */
  datatype DailyUsage = DailyUsage(date: string, count: int)

  /** A `Set-Cookie` of the usage record with its max-age in seconds. */
  datatype UsageCookie = UsageCookie(usage: DailyUsage, maxAge: int)

  /** The errors the routes report, each sent as the `error` text below. */
  datatype ApiError =
    | AuthenticationRequired
    | DailyLimitExceeded
    | DescriptionRequired
    | BaseDescriptionRequired
    | CaptchaFailed
    | NamesGenerationFailed
    | DescriptionGenerationFailed

  /** The `error` field of each error response. */
  function ErrorText(e: ApiError): string {
    match e
    case AuthenticationRequired => "Authentication required"
    case DailyLimitExceeded => "Daily limit exceeded"
    case DescriptionRequired => "Description is required"
    case BaseDescriptionRequired => "Base description is required"
    case CaptchaFailed => "reCAPTCHA verification failed"
    case NamesGenerationFailed => "Failed to generate SEO names"
    case DescriptionGenerationFailed => "Failed to generate SEO product description"
  }

  /** The `message` field sent with the daily-limit error. */
  const LimitMessage: string :=
    "Free users can generate 5 SEO descriptions per day. Upgrade to PRO for unlimited access."

  /**
   * The JSON bodies the routes send: an error; the daily-limit error with
   * LimitMessage and a remaining count; a failure with the thrown error's
   * message as `details`; or a result.
   */
  datatype Body =
    | ErrorBody(error: ApiError)
    | LimitBody(error: ApiError, remainingCount: int)
    | FailureBody(error: ApiError, details: string)
    | DescriptionBody(seoDescription: JsonValue, remaining: Option<int>, isPro: Option<bool>)
    | NamesBody(seoNames: seq<JsonValue>)

  /** A response: its status, its JSON body and the usage cookie it sets, if any. */
  datatype Response = Response(status: int, body: Body, setCookie: Option<UsageCookie>)
}
