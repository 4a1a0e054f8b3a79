/**
 * The Gemini helpers: the language-code table the two prompts share, the
 * prompt texts with their placeholders, the API-key guard, and what is
 * done with the model's reply. The reply itself (the `text` of the
 * response and what JSON.parse makes of it) is a parameter.
 */
module Gemini {
  import opened Wrappers
  import opened Strings

  /* ---- the language table of getSeoNamesPrompt and getSeoProductDescriptionPrompt ---- */

  /** The codes the `switch (language)` knows, in its case order. */
  const LanguageCodes: seq<string> := ["cs", "nl", "pl", "uk", "ru", "de", "fr", "en"]

  /** The names the cases assign, in the same order. */
  const LanguageNames: seq<string> := ["Czech", "Dutch", "Polish", "Ukrainian", "Russian", "German", "French", "English"]

  /** `languageName`: "English" unless a case of the switch matches. */
  function LanguageName(language: string): (name: string)
    ensures name in LanguageNames
    ensures language !in LanguageCodes ==> name == "English"
  {
    if language == "cs" then "Czech"
    else if language == "nl" then "Dutch"
    else if language == "pl" then "Polish"
    else if language == "uk" then "Ukrainian"
    else if language == "ru" then "Russian"
    else if language == "de" then "German"
    else if language == "fr" then "French"
    else "English"
  }

  /** Each code of the switch gets the name at the same position. */
  lemma LanguageNameTable()
    ensures |LanguageCodes| == |LanguageNames| == 8
    ensures forall i :: 0 <= i < 8 ==> LanguageName(LanguageCodes[i]) == LanguageNames[i]
  {
  }

  /** The eight names differ in their first letter. */
  lemma LanguageNamesDistinct()
    ensures NoDuplicates(LanguageNames)
  {
    forall i, j | 0 <= i < j < |LanguageNames| ensures LanguageNames[i] != LanguageNames[j] {
      assert LanguageNames[i][0] != LanguageNames[j][0];
    }
  }

  /** The code a language name came from: the code at the name's position. */
  function LanguageCode(name: string): (code: string)
    requires name in LanguageNames
    ensures code in LanguageCodes
  {
    LanguageCodes[FirstIndex(LanguageNames, name)]
  }

  /** No two known codes share a name, so the code is recovered from the name. */
  lemma LanguageNameRoundTrip(code: string)
    requires code in LanguageCodes
    ensures LanguageCode(LanguageName(code)) == code
  {
    LanguageNameTable();
    LanguageNamesDistinct();
    var i :| 0 <= i < 8 && LanguageCodes[i] == code;
    assert LanguageName(code) == LanguageNames[i];
    var k := FirstIndex(LanguageNames, LanguageNames[i]);
    assert k == i;
  }

  /** Any code outside the table, the empty one included, falls back to English. */
  lemma UnknownLanguageIsEnglish(language: string)
    requires language !in LanguageCodes
    ensures LanguageName(language) == "English" == LanguageName("en")
  {
  }

  /* ---- `${count}` for an integral count ---- */

  function DigitChar(d: int): (c: char)
    requires 0 <= d < 10
    ensures '0' <= c <= '9'
  {
    ('0' as int + d) as char
  }

  predicate AllDigits(s: string) {
    forall i :: 0 <= i < |s| ==> '0' <= s[i] <= '9'
  }

  /** The decimal digits of n, without leading zeros. */
  function NatText(n: nat): (s: string)
    ensures |s| >= 1 && AllDigits(s)
    ensures |s| > 1 ==> s[0] != '0'
    decreases n
  {
    if n < 10 then [DigitChar(n)] else NatText(n / 10) + [DigitChar(n % 10)]
  }

  /** The number a string of decimal digits denotes. */
  function DigitsValue(s: string): (n: nat)
    requires AllDigits(s)
    decreases |s|
  {
    if |s| == 0 then 0 else 10 * DigitsValue(s[..|s| - 1]) + (s[|s| - 1] as int - '0' as int)
  }

  /** Reading back the digits gives the number. */
  lemma {:induction false} NatTextRoundTrip(n: nat)
    ensures DigitsValue(NatText(n)) == n
    decreases n
  {
    if n >= 10 {
      var s := NatText(n);
      assert s[..|s| - 1] == NatText(n / 10);
      NatTextRoundTrip(n / 10);
    }
  }

  /** How a template literal renders an integral number: a minus sign, then the digits. */
  function IntText(n: int): (s: string)
    ensures |s| >= 1
    ensures n < 0 <==> s[0] == '-'
  {
    if n < 0 then "-" + NatText(-n) else NatText(n)
  }

  /** The integer a rendered integer denotes. */
  function ParseIntText(s: string): int
    requires |s| >= 1 && (if s[0] == '-' then AllDigits(s[1..]) else AllDigits(s))
  {
    if s[0] == '-' then -(DigitsValue(s[1..]) as int) else DigitsValue(s)
  }

  /** The rendering loses nothing: the count is read back from the prompt text. */
  lemma IntTextRoundTrip(n: int)
    ensures var s := IntText(n);
      (if s[0] == '-' then AllDigits(s[1..]) else AllDigits(s)) && ParseIntText(s) == n
  {
    if n < 0 {
      NatTextRoundTrip(-n);
      assert IntText(n)[1..] == NatText(-n);
    } else {
      NatTextRoundTrip(n);
    }
  }

  /* ---- the prompts ---- */

  /** The names prompt up to its first `${count}`. */
  const NamesPromptOpening: string :=
    "\nYou are an expert in SEO optimization for e-commerce product images. \nYour task is to generate "

  /** Between the first and the second `${count}`: the eight guidelines. */
  const NamesPromptGuidelines: string :=
    " SEO-friendly image filenames based on the user's product description.\n\n" +
    "Follow these guidelines for creating optimal SEO image names:\n" +
    "1. Use hyphens to separate words (e.g., \"black-leather-wallet\")\n" +
    "2. Include the most important keywords first\n" +
    "3. Include key product attributes (color, material, style, etc.)\n" +
    "4. Keep names under 60 characters\n" +
    "5. Use only lowercase letters, numbers, and hyphens\n" +
    "6. Make each name unique and optimized for search engines\n" +
    "7. Do not include file extensions or special characters\n" +
    "8. Generate exactly "

  /** Between the second `${count}` and the closing instruction. */
  const NamesPromptAnalysis: string :=
    " unique image filenames\n\n" +
    "Analyze the user's product description to create the most effective SEO image names.\n\n"

  /** The last line of the names prompt. */
  function NamesInstruction(languageName: string, countText: string): string {
    "IMPORTANT: Respond only in " + languageName + " and return exactly " + countText + " names in JSON array format.\n"
  }

  /** A value placed after a fixed text is found right at the text's end. */
  lemma PlacedAfter(text: string, value: string, rest: string, tail: string)
    ensures ContainsAt(text + (value + rest) + tail, value, |text|)
    ensures EndsWith(text + (value + rest) + tail, tail)
  {
    var s := text + (value + rest) + tail;
    assert s[|text|..|text| + |value|] == value;
    assert s[|s| - |tail|..] == tail;
  }

  /** getSeoNamesPrompt, with `countText` the rendering of the count. */
  function SeoNamesPrompt(countText: string, language: string): (prompt: string)
    ensures ContainsAt(prompt, countText, |NamesPromptOpening|)
    ensures EndsWith(prompt, NamesInstruction(LanguageName(language), countText))
  {
    var middle := NamesPromptGuidelines + countText + NamesPromptAnalysis;
    var tail := NamesInstruction(LanguageName(language), countText);
    PlacedAfter(NamesPromptOpening, countText, middle, tail);
    NamesPromptOpening + (countText + middle) + tail
  }

  /** The last line of the names prompt names the language right after its 27-character opening. */
  lemma InstructionNamesLanguage(languageName: string, countText: string)
    ensures ContainsAt(NamesInstruction(languageName, countText), languageName, 27)
  {
    var opening := "IMPORTANT: Respond only in ";
    var rest := " and return exactly " + countText + " names in JSON array format.\n";
    assert |opening| == 27;
    assert NamesInstruction(languageName, countText) == opening + languageName + rest;
    assert (opening + languageName + rest)[27..27 + |languageName|] == languageName;
  }

  /** What the end of a text contains, the text contains. */
  lemma ContainedInSuffix(s: string, tail: string, value: string, k: int)
    requires EndsWith(s, tail) && ContainsAt(tail, value, k)
    ensures Contains(s, value)
  {
    var start := |s| - |tail| + k;
    assert s[|s| - |tail|..] == tail;
    assert s[start..start + |value|] == tail[k..k + |value|];
    ContainsWitness(s, value, start);
  }

  /** The names prompt states the count it asks for, and the language in its last line. */
  lemma NamesPromptStatesCountAndLanguage(count: int, language: string)
    ensures var prompt := SeoNamesPrompt(IntText(count), language);
      Contains(prompt, IntText(count)) && Contains(prompt, LanguageName(language))
  {
    var countText := IntText(count);
    var prompt := SeoNamesPrompt(countText, language);
    ContainsWitness(prompt, countText, |NamesPromptOpening|);
    InstructionNamesLanguage(LanguageName(language), countText);
    ContainedInSuffix(prompt, NamesInstruction(LanguageName(language), countText), LanguageName(language), 27);
  }

  /** The product-description prompt up to `${languageName}`. */
  const DescriptionPromptBody: string :=
    "\nYou are an expert e-commerce SEO copywriter. Your task is to generate a complete SEO product description \n" +
    "based on the basic product information provided by the user.\n\n" +
    "Create a structured product description that includes:\n\n" +
    "1. Product Title (60 characters max): Descriptive and concise with primary keywords at the beginning\n" +
    "2. Meta Title (30-60 characters): Similar to product title but optimized for SEO\n" +
    "3. Meta Description (70-155 characters): Compelling summary with keywords and a call-to-action\n" +
    "4. Short Description (1-2 sentences): Key features and benefits with primary keywords\n" +
    "5. Long Description (300-500 words): Detailed information with:\n" +
    "   - Specifications and features\n" +
    "   - Usage instructions\n" +
    "   - Unique selling points\n" +
    "   - Secondary keywords and related terms\n" +
    "   - Structured with subheadings\n" +
    "6. Categories (2-3 levels): Logical product categorization hierarchy\n" +
    "7. Tags (5-10 keywords): Relevant attributes and keywords for searchability\n" +
    "8. URL Slug: Clean, descriptive URL with primary keywords separated by hyphens\n\n" +
    "Analyze the user's basic product information to create a complete, SEO-optimized description.\n\n"

  /** The last line of the product-description prompt. */
  function DescriptionInstruction(languageName: string): string {
    "IMPORTANT: Respond only in " + languageName + " and structure your response as a JSON object.\n"
  }

  /** Two texts joined: the first starts the whole, the second ends it. */
  lemma Joined(head: string, tail: string)
    ensures StartsWith(head + tail, head) && EndsWith(head + tail, tail)
  {
    assert (head + tail)[..|head|] == head;
    assert (head + tail)[|head|..] == tail;
  }

  /** getSeoProductDescriptionPrompt: the fixed body, then the instruction naming the language. */
  function SeoProductDescriptionPrompt(language: string): (prompt: string)
    ensures EndsWith(prompt, DescriptionInstruction(LanguageName(language)))
    ensures StartsWith(prompt, DescriptionPromptBody)
  {
    var tail := DescriptionInstruction(LanguageName(language));
    Joined(DescriptionPromptBody, tail);
    DescriptionPromptBody + tail
  }

  /** The request text: the prompt, a blank line, and the user's description after a heading. */
  function WithDescription(prompt: string, heading: string, description: string): (text: string)
    ensures StartsWith(text, prompt) && EndsWith(text, description)
  {
    Joined(prompt, "\n\n" + heading + description);
    Joined(prompt + "\n\n" + heading, description);
    assert prompt + "\n\n" + heading + description == prompt + ("\n\n" + heading + description);
    prompt + "\n\n" + heading + description
  }

  /* ---- initGemini and the reply ---- */

  /** What JSON.parse can produce. */
  datatype JsonValue =
    | JsonNull
    | JsonBool(b: bool)
    | JsonNumber(n: real)
    | JsonString(s: string)
    | JsonArray(elements: seq<JsonValue>)
    | JsonObject(members: seq<(string, JsonValue)>)

  /** The errors the two generate functions throw. */
  datatype GeminiError =
    | MissingApiKey
    | RequestFailed(reason: string)
    | EmptyText
    | NotJson

  /** The `message` of each error. */
  function Message(e: GeminiError): string {
    match e
    case MissingApiKey => "GOOGLE_AI_API_KEY is not defined in environment variables"
    case RequestFailed(reason) => reason
    case EmptyText => "Received empty text response from Gemini API"
    case NotJson => "Failed to parse Gemini response as JSON"
  }

  /**
   * The outcome of `generateContent`: it throws, or it answers with a
   * `text` (None for undefined) and what JSON.parse makes of that text
   * (None when it throws).
   */
  datatype GeminiReply = Rejects(reason: string) | Replies(text: Option<string>, parsed: Option<JsonValue>)

  /** initGemini: a client for the key, or an error when the key is unset or empty. */
  function InitGemini(apiKey: Option<string>): (r: Result<string, GeminiError>)
    ensures r.Err? <==> apiKey.None? || apiKey.value == ""
    ensures r.Err? ==> r.error == MissingApiKey
    ensures r.Ok? ==> r.value == apiKey.value
  {
    if apiKey.None? || apiKey.value == "" then Err(MissingApiKey) else Ok(apiKey.value)
  }

  /** The steps both generate functions share: the key, the call, the empty-text check and the parse. */
  function ReplyJson(apiKey: Option<string>, reply: GeminiReply): (r: Result<JsonValue, GeminiError>)
    ensures r.Ok? <==> InitGemini(apiKey).Ok? && reply.Replies? && reply.text.Some? && reply.text.value != "" &&
                       reply.parsed.Some?
    ensures r.Ok? ==> r.value == reply.parsed.value
    ensures InitGemini(apiKey).Err? ==> r == Err(MissingApiKey)
    ensures InitGemini(apiKey).Ok? && reply.Rejects? ==> r == Err(RequestFailed(reply.reason))
    ensures InitGemini(apiKey).Ok? && reply.Replies? && (reply.text.None? || reply.text.value == "") ==> r == Err(EmptyText)
  {
    match InitGemini(apiKey)
    case Err(e) => Err(e)
    case Ok(_) =>
      match reply
      case Rejects(reason) => Err(RequestFailed(reason))
      case Replies(text, parsed) =>
        if text.None? || text.value == "" then Err(EmptyText)
        else if parsed.None? then Err(NotJson)
        else Ok(parsed.value)
  }

  /* ---- `seoNames.slice(0, count)` ---- */

  /** ToIntegerOrInfinity on a finite number: truncation toward zero. */
  function Trunc(x: real): (k: int)
    ensures x >= 0.0 ==> k == x.Floor
    ensures x < 0.0 ==> k == -((-x).Floor)
  {
    if x >= 0.0 then x.Floor else -((-x).Floor)
  }

  /** The end index `slice(0, end)` uses on an array of length len. */
  function SliceEnd(len: nat, end: real): (e: nat)
    ensures e <= len
    ensures Trunc(end) >= 0 ==> e == if Trunc(end) <= len then Trunc(end) else len
    ensures Trunc(end) < 0 ==> e == if len + Trunc(end) >= 0 then len + Trunc(end) else 0
  {
    var k := Trunc(end);
    if k < 0 then (if len + k >= 0 then len + k else 0)
    else if k <= len then k
    else len
  }

  /**
   * generateSeoImageNames: the reply must be a JSON array, of which the
   * first `count` elements are returned (a negative count drops that many
   * from the end, as slice does). A reply that parses to anything but an
   * array is reported as a parse failure, since its error is thrown inside
   * the parsing try block. The description, the count and the language
   * only shape the request.
   */
  function GenerateSeoImageNames(description: string, count: real, language: string,
                                 apiKey: Option<string>, reply: GeminiReply): (r: Result<seq<JsonValue>, GeminiError>)
    ensures r.Ok? <==> ReplyJson(apiKey, reply).Ok? && ReplyJson(apiKey, reply).value.JsonArray?
    ensures ReplyJson(apiKey, reply).Err? ==> r == Err(ReplyJson(apiKey, reply).error)
    ensures ReplyJson(apiKey, reply).Ok? && !ReplyJson(apiKey, reply).value.JsonArray? ==> r == Err(NotJson)
    ensures r.Ok? ==> var names := ReplyJson(apiKey, reply).value.elements;
      |r.value| == SliceEnd(|names|, count) && r.value == names[..|r.value|]
  {
    match ReplyJson(apiKey, reply)
    case Err(e) => Err(e)
    case Ok(parsedResponse) =>
      if parsedResponse.JsonArray? then
        var seoNames := parsedResponse.elements;
        Ok(seoNames[..SliceEnd(|seoNames|, count)])
      else Err(NotJson)
  }

  /** With a non-negative count the names are the first min(count, n) of the reply, in order. */
  lemma ImageNamesArePrefix(description: string, count: real, language: string,
                            apiKey: Option<string>, reply: GeminiReply, n: int)
    requires 0 <= n && count == n as real
    requires GenerateSeoImageNames(description, count, language, apiKey, reply).Ok?
    ensures var names := reply.parsed.value.elements;
      var r := GenerateSeoImageNames(description, count, language, apiKey, reply).value;
      |r| == (if n <= |names| then n else |names|) &&
      forall i :: 0 <= i < |r| ==> r[i] == names[i]
  {
  }

  /**
   * generateSeoProductDescription: the parsed reply as it is; its shape is
   * asserted by a type cast, not checked.
   */
  function GenerateSeoProductDescription(baseDescription: string, language: string,
                                         apiKey: Option<string>, reply: GeminiReply): (r: Result<JsonValue, GeminiError>)
    ensures r.Ok? <==> InitGemini(apiKey).Ok? && reply.Replies? && reply.text.Some? && reply.text.value != "" &&
                       reply.parsed.Some?
    ensures r.Ok? ==> r.value == reply.parsed.value
    ensures r.Err? && InitGemini(apiKey).Ok? && reply.Replies? && reply.text.Some? && reply.text.value != "" ==>
      r.error == NotJson
  {
    ReplyJson(apiKey, reply)
  }

  /** An empty or missing key fails both functions before any request, whatever the reply. */
  lemma MissingKeyFailsFirst(count: real, apiKey: Option<string>, reply: GeminiReply)
    requires apiKey.None? || apiKey.value == ""
    ensures GenerateSeoImageNames("", count, "en", apiKey, reply) == Err(MissingApiKey)
    ensures GenerateSeoProductDescription("", "en", apiKey, reply) == Err(MissingApiKey)
  {
  }
}
