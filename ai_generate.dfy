/**
 * `POST` (image narration) and `PUT` (translation) on `/api/ai-generate`:
 * request validation, the mock switch, the prompts sent to the model and the
 * mapping of a timed-out model call to 504. The model call itself is the
 * parameter `ai`, a function from the messages sent to what the call yields.
 */
module AiGenerate {
  import opened Wrappers
  import opened Text

  const SupportedLanguages: seq<string> := ["English", "Japanese", "Spanish", "Chinese"]
  const ImageUrlRequired := "imageUrl is required"
  const PromptRequired := "prompt is required"
  const TimeoutMessage := "AI model request timeout"
  const AbortErrorName := "AbortError"
  const DefaultUserText := "Please provide a detailed narrative description of this image."
  const NoSpecificPrompt := "No specific prompt"

  /** A thrown JavaScript value: an `Error` with its `name` and `message`, or a bare value. */
  datatype Thrown = Error(name: string, message: string) | NotAnError

  /** What awaiting the model call gives: its text, or what it threw. */
  datatype AiCall = Text(text: string) | Raised(thrown: Thrown)

  /** The messages of one model request: the system prompt, the image if any, and the user text. */
  datatype AiMessages = AiMessages(system: string, image: Option<string>, user: string)

  /** What a handler does: answer with a status and a JSON body, or let an exception escape. */
  datatype Reply = Json(status: int, text: Option<string>, error: Option<string>) | Escapes(thrown: Thrown)

  /**
   * The mock switches. `narrative` is the fixed story appended to the mock
   * image text; `production` is `NODE_ENV === 'production'`.
   */
  datatype MockConfig = MockConfig(enableMock: bool, production: bool, enableMockAds: bool, narrative: string)

  datatype MockKind = Image(imagePrompt: Option<string>, imageUrl: string) | Translate(prompt: string, language: string)

  // ----- applyTimeout -----

  /** `applyTimeout`: an `AbortError` becomes the timeout error; anything else passes through. */
  function ApplyTimeout(call: AiCall): (r: AiCall)
    ensures call.Text? ==> r == call
    ensures call.Raised? && call.thrown.Error? && call.thrown.name == AbortErrorName ==>
      r.Raised? && r.thrown.Error? && r.thrown.message == TimeoutMessage
    ensures call.Raised? && !(call.thrown.Error? && call.thrown.name == AbortErrorName) ==> r == call
  {
    if call.Raised? && call.thrown.Error? && call.thrown.name == AbortErrorName
    then Raised(Error("Error", TimeoutMessage))
    else call
  }

  /** The `catch` of both handlers: the timeout message is answered 504, anything else escapes. */
  function AnswerModel(call: AiCall): (r: Reply)
    ensures call.Text? ==> r == Json(200, Some(call.text), None)
    ensures call.Raised? && call.thrown.Error? && call.thrown.message == TimeoutMessage ==>
      r == Json(504, None, Some(TimeoutMessage))
    ensures call.Raised? && !(call.thrown.Error? && call.thrown.message == TimeoutMessage) ==> r == Escapes(call.thrown)
  {
    if call.Text? then Json(200, Some(call.text), None)
    else if call.thrown.Error? && call.thrown.message == TimeoutMessage then Json(504, None, Some(TimeoutMessage))
    else Escapes(call.thrown)
  }

  /** An aborted model call is answered 504 whatever the abort's own message was. */
  lemma AbortIsGatewayTimeout(message: string)
    ensures AnswerModel(ApplyTimeout(Raised(Error(AbortErrorName, message)))) == Json(504, None, Some(TimeoutMessage))
  {
  }

  // ----- mock responses -----

  const JapaneseLead := "[MockData-Japanese] "
  const JapaneseTail := "の日本語翻訳です。これは模擬翻訳データです。"
  const SpanishLead := "[MockData-Spanish] "
  const SpanishTail := " - Esta es una traducción simulada al español."
  const ChineseLead := "[MockData-Chinese] "
  const ChineseTail := " - 这是模拟的中文翻译数据。"

  /** `mockTranslations[language] || mockTranslations['English']`. */
  function MockTranslation(prompt: string, language: string): (r: string)
    ensures language !in SupportedLanguages ==> r == prompt
    ensures language == "English" ==> r == prompt
  {
    var entry :=
      if language == "English" then Some(prompt)
      else if language == "Japanese" then Some(JapaneseLead + prompt + JapaneseTail)
      else if language == "Spanish" then Some(SpanishLead + prompt + SpanishTail)
      else if language == "Chinese" then Some(ChineseLead + prompt + ChineseTail)
      else None;
    OrElse(entry, prompt)
  }

  /** Every mock translation quotes the prompt it translates. */
  lemma MockTranslationQuotesPrompt(prompt: string, language: string)
    ensures Contains(MockTranslation(prompt, language), prompt)
  {
    var r := MockTranslation(prompt, language);
    var a := if language == "Japanese" then JapaneseLead
             else if language == "Spanish" then SpanishLead
             else if language == "Chinese" then ChineseLead
             else "";
    assert r[|a|..|a| + |prompt|] == prompt;
    ContainsAt(r, prompt, |a|);
  }

  /** The mock image text names the image and the prompt, or says there is none. */
  function MockImageText(cfg: MockConfig, prompt: Option<string>, imageUrl: string): (r: string)
    ensures StartsWith(r, "[MockData] Analyzing image: " + imageUrl + ". User prompt: ")
  {
    var head := "[MockData] Analyzing image: " + imageUrl + ". User prompt: ";
    var r := head + OrElse(prompt, NoSpecificPrompt) + "\n\n" + cfg.narrative;
    assert r[..|head|] == head;
    r
  }

  /**
   * `handleMockResponse`: `None` when mocking is off; outside production the
   * ads switch throws (`error('MOCK TEST!')` is `console.error`, which
   * returns `undefined`, so `undefined` is what is thrown).
   */
  function HandleMock(cfg: MockConfig, kind: MockKind): (r: Option<AiCall>)
    ensures !cfg.enableMock ==> r.None?
    ensures cfg.enableMock && !cfg.production && cfg.enableMockAds ==> r == Some(Raised(NotAnError))
    ensures cfg.enableMock && (cfg.production || !cfg.enableMockAds) ==> r.Some? && r.value.Text?
    ensures cfg.enableMock && (cfg.production || !cfg.enableMockAds) && kind.Translate? ==>
      r == Some(Text(MockTranslation(kind.prompt, kind.language)))
  {
    if !cfg.enableMock then None
    else if !cfg.production && cfg.enableMockAds then Some(Raised(NotAnError))
    else
      match kind
      case Image(prompt, imageUrl) => Some(Text(MockImageText(cfg, prompt, imageUrl)))
      case Translate(prompt, language) => Some(Text(MockTranslation(prompt, language)))
  }

  /** With mocking on, the translation of an unsupported language would be the prompt itself. */
  lemma MockFallsBackToEnglish(cfg: MockConfig, prompt: string, language: string)
    requires cfg.enableMock && cfg.production && language !in SupportedLanguages
    ensures HandleMock(cfg, Translate(prompt, language)) == Some(Text(prompt))
  {
  }

  // ----- POST: image narration -----

  // The narration prompt's fixed text, in pieces short enough to reason about.
  const Head1 := "You are an expert image narrator."
  const Head2 := " Analyze the provided image and create"
  const Head3 := " a compelling narrative description."
  const Head4 := "In a multi-paragraph format with a"
  const Head5 := " general-to-specific structure,"
  const Head6 := " the first row is main title."
  const NarrationHead := Head1 + Head2 + Head3 + Head4 + Head5 + Head6
  const WordLimitLead := " Keep the result under "
  const Tail1 := " words. Clear and engaging English,"
  const Tail2 := " in pure plain text without any formatting."
  const NarrationTail := Tail1 + Tail2
  const FocusLead := "Focus on: "

  /** The system prompt for image narration; a prompt adds a `Focus on:` clause. */
  function NarrationPrompt(prompt: Option<string>, limitMaxWords: nat): string {
    NarrationHead + (if Truthy(prompt) then FocusLead + prompt.value else "")
    + WordLimitLead + NatToString(limitMaxWords) + NarrationTail
  }

  // One lemma per constant keeps each literal-string fact a proof obligation of its own.
  lemma Head1HasNoF() ensures 'F' !in Head1 { }
  lemma Head2HasNoF() ensures 'F' !in Head2 { }
  lemma Head3HasNoF() ensures 'F' !in Head3 { }
  lemma Head4HasNoF() ensures 'F' !in Head4 { }
  lemma Head5HasNoF() ensures 'F' !in Head5 { }
  lemma Head6HasNoF() ensures 'F' !in Head6 { }
  lemma LeadHasNoF() ensures 'F' !in WordLimitLead { }
  lemma Tail1HasNoF() ensures 'F' !in Tail1 { }
  lemma Tail2HasNoF() ensures 'F' !in Tail2 { }

  /** The system prompt asks to focus on the user's prompt when there is one. */
  lemma FocusClausePresent(prompt: string, limitMaxWords: nat)
    requires prompt != ""
    ensures Contains(NarrationPrompt(Some(prompt), limitMaxWords), FocusLead + prompt)
  {
    var s := NarrationPrompt(Some(prompt), limitMaxWords);
    var focus := FocusLead + prompt;
    assert s == NarrationHead + focus + (WordLimitLead + NatToString(limitMaxWords) + NarrationTail);
    assert s[|NarrationHead|..|NarrationHead| + |focus|] == focus;
    ContainsAt(s, focus, |NarrationHead|);
  }

  lemma HeadHasNoF()
    ensures 'F' !in NarrationHead
  {
    Head1HasNoF(); Head2HasNoF(); Head3HasNoF(); Head4HasNoF(); Head5HasNoF(); Head6HasNoF();
  }

  lemma TailHasNoF()
    ensures 'F' !in NarrationTail
  {
    Tail1HasNoF(); Tail2HasNoF();
  }

  lemma DigitsHaveNoF(n: nat)
    ensures 'F' !in NatToString(n)
  {
    var digits := NatToString(n);
    assert forall i :: 0 <= i < |digits| ==> digits[i] != 'F';
  }

  /** Without a prompt, the system prompt has no `Focus on:` clause at all. */
  lemma FocusClauseAbsent(prompt: Option<string>, limitMaxWords: nat)
    requires !Truthy(prompt)
    ensures !Contains(NarrationPrompt(prompt, limitMaxWords), FocusLead)
  {
    var digits := NatToString(limitMaxWords);
    HeadHasNoF(); LeadHasNoF(); DigitsHaveNoF(limitMaxWords); TailHasNoF();
    assert NarrationPrompt(prompt, limitMaxWords) == NarrationHead + WordLimitLead + digits + NarrationTail;
    NoFocusWithoutF(NarrationHead, WordLimitLead, digits, NarrationTail);
  }

  /** Pieces none of which holds a capital `F` never make up a text holding `Focus on: `. */
  lemma NoFocusWithoutF(a: string, b: string, c: string, d: string)
    requires 'F' !in a && 'F' !in b && 'F' !in c && 'F' !in d
    ensures !Contains(a + b + c + d, FocusLead)
  {
    var s := a + b + c + d;
    if Contains(s, FocusLead) {
      ContainsHead(s, FocusLead);
      assert false;
    }
  }

  /** The user turn: the prompt, or a default request for a narrative. */
  function NarrationUserText(prompt: Option<string>): (r: string)
    ensures r != ""
    ensures Truthy(prompt) ==> r == prompt.value
  {
    OrElse(prompt, DefaultUserText)
  }

  /** `POST`. `body` is `None` when the request body is not a JSON object. */
  function Post(body: Option<(Option<string>, Option<string>)>, cfg: MockConfig, limitMaxWords: nat,
                ai: AiMessages -> AiCall): (r: Reply)
    ensures body.None? ==> r.Escapes?
    ensures body.Some? && !Truthy(body.value.1) ==> r == Json(400, None, Some(ImageUrlRequired))
    ensures body.Some? && Truthy(body.value.1) && !cfg.enableMock ==>
      r == AnswerModel(ApplyTimeout(ai(AiMessages(NarrationPrompt(body.value.0, limitMaxWords), body.value.1,
                                                  NarrationUserText(body.value.0)))))
    ensures body.Some? && Truthy(body.value.1) && cfg.enableMock && (cfg.production || !cfg.enableMockAds) ==>
      r.Json? && r.status == 200 && r.text.Some? &&
      StartsWith(r.text.value, "[MockData] Analyzing image: " + body.value.1.value + ". User prompt: ")
    ensures r.Json? && r.status == 400 ==> body.Some? && !Truthy(body.value.1)
  {
    if body.None? then Escapes(NotAnError)
    else
      var (prompt, imageUrl) := body.value;
      if !Truthy(imageUrl) then Json(400, None, Some(ImageUrlRequired))
      else
        var mock := HandleMock(cfg, Image(prompt, imageUrl.value));
        if mock.Some? then
          (if mock.value.Text? then Json(200, Some(mock.value.text), None) else Escapes(mock.value.thrown))
        else
          AnswerModel(ApplyTimeout(ai(AiMessages(NarrationPrompt(prompt, limitMaxWords), imageUrl,
                                                 NarrationUserText(prompt)))))
  }

  /** Without an image URL the model is never called, whatever it would answer. */
  lemma MissingImageNeverCallsModel(prompt: Option<string>, cfg: MockConfig, limitMaxWords: nat,
                                    ai1: AiMessages -> AiCall, ai2: AiMessages -> AiCall)
    ensures Post(Some((prompt, None)), cfg, limitMaxWords, ai1) == Post(Some((prompt, None)), cfg, limitMaxWords, ai2)
    ensures Post(Some((prompt, Some(""))), cfg, limitMaxWords, ai1) == Json(400, None, Some(ImageUrlRequired))
  {
  }

  // ----- PUT: translation -----

  /** The message listing the supported languages, in order and separated by commas. */
  function LanguageError(): (r: string)
    ensures r == "language must be one of: " + SupportedLanguages[0] + ", " + SupportedLanguages[1] + ", " +
                 SupportedLanguages[2] + ", " + SupportedLanguages[3]
  {
    var langs := SupportedLanguages;
    assert Join(langs[3..], ", ") == langs[3];
    assert Join(langs[2..], ", ") == langs[2] + ", " + Join(langs[3..], ", ");
    assert Join(langs[1..], ", ") == langs[1] + ", " + Join(langs[2..], ", ");
    "language must be one of: " + Join(langs, ", ")
  }

  const TranslatorLead := "You are a professional translator. Translate the provided text to "
  const TranslatorTail1 := ". Maintain the original meaning, tone, and style."
  const TranslatorTail2 := " Return only the translated text without any additional comments or formatting."

  /** The system prompt for a translation into `language`. */
  function TranslationPrompt(language: string): string {
    TranslatorLead + language + TranslatorTail1 + TranslatorTail2
  }

  /** `PUT`. `body` is `None` when the request body is not a JSON object. */
  function Put(body: Option<(Option<string>, Option<string>)>, cfg: MockConfig, ai: AiMessages -> AiCall): (r: Reply)
    ensures body.None? ==> r.Escapes?
    ensures body.Some? && !Truthy(body.value.0) ==> r == Json(400, None, Some(PromptRequired))
    ensures body.Some? && Truthy(body.value.0) && !(body.value.1.Some? && body.value.1.value in SupportedLanguages) ==>
      r == Json(400, None, Some(LanguageError()))
    ensures r.Json? && r.status == 400 <==>
      body.Some? && (!Truthy(body.value.0) || !(body.value.1.Some? && body.value.1.value in SupportedLanguages))
    ensures body.Some? && Truthy(body.value.0) && body.value.1.Some? && body.value.1.value in SupportedLanguages &&
            !cfg.enableMock ==>
      r == AnswerModel(ApplyTimeout(ai(AiMessages(TranslationPrompt(body.value.1.value), None, body.value.0.value))))
    ensures body.Some? && Truthy(body.value.0) && body.value.1 == Some("English") && cfg.enableMock &&
            (cfg.production || !cfg.enableMockAds) ==>
      r == Json(200, Some(body.value.0.value), None)
  {
    if body.None? then Escapes(NotAnError)
    else
      var (prompt, language) := body.value;
      if !Truthy(prompt) then Json(400, None, Some(PromptRequired))
      else if !(language.Some? && language.value in SupportedLanguages) then Json(400, None, Some(LanguageError()))
      else Translation(prompt.value, language.value, cfg, ai)
  }

  /** The validated part of `PUT`: the mock answer if mocking is on, otherwise the model's. */
  function Translation(prompt: string, language: string, cfg: MockConfig, ai: AiMessages -> AiCall): (r: Reply)
    ensures !(r.Json? && r.status == 400)
    ensures !cfg.enableMock ==> r == AnswerModel(ApplyTimeout(ai(AiMessages(TranslationPrompt(language), None, prompt))))
    ensures language == "English" && cfg.enableMock && (cfg.production || !cfg.enableMockAds) ==>
      r == Json(200, Some(prompt), None)
  {
    if !cfg.enableMock then
      var call := ApplyTimeout(ai(AiMessages(TranslationPrompt(language), None, prompt)));
      AnswerModel(call)
    else
      var mock := HandleMock(cfg, Translate(prompt, language));
      if mock.value.Text? then Json(200, Some(mock.value.text), None) else Escapes(mock.value.thrown)
  }
}
