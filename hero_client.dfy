/**
 * The decisions of the narration page's client component
 * (`hero-client.tsx`): which files may be uploaded, which credit hint is
 * shown under the generate button, and how a failed generation is routed
 * to a dialog. React state and rendering are not modelled.
 */
module HeroClient {
  import opened Wrappers
  import opened Text

  /** `IMAGE_ACCEPT.split(',')`. */
  const AcceptedImageTypes: seq<string> := ["image/jpeg", "image/jpg", "image/png", "image/webp"]
  const AcceptedImageExtensions: set<string> := {"jpeg", "jpg", "png", "webp"}
  const TimeoutMessage := "AI model request timeout"
  const UnknownError := "Unknown error"
  const NoTextReceived := "No text content received from AI"
  const BytesPerMB := 1024 * 1024

  // ----- file checks -----

  /** `file.type.split(';')[0].toLowerCase()`: the media type without parameters. */
  function MediaType(mime: string): string {
    Lower(Split(mime, ';')[0])
  }

  /** `file.name.split('.').pop().toLowerCase()`: the text after the last dot, or the whole name. */
  function Extension(name: string): string {
    var parts := Split(name, '.');
    Lower(parts[|parts| - 1])
  }

  /** `isAllowedImageFile`: an accepted media type, or else an accepted extension. */
  function IsAllowedImageFile(mime: string, name: string): (r: bool)
    ensures r <==> MediaType(mime) in AcceptedImageTypes || Extension(name) in AcceptedImageExtensions
  {
    var normalized := MediaType(mime);
    if normalized != "" && normalized in AcceptedImageTypes then true
    else
      var extension := Extension(name);
      if extension != "" then extension in AcceptedImageExtensions else false
  }

  /** Parameters after `;` and upper-case letters do not matter to the media-type test. */
  lemma MediaTypeIgnoresParameters(t: string, params: string, name: string)
    requires ';' !in t && Lower(t) in AcceptedImageTypes
    ensures IsAllowedImageFile(t + ";" + params, name)
  {
    SplitAppendSep(t, params, ';');
    SplitNoSep(t, ';');
    assert t + ";" + params == t + [';'] + params;
  }

  /** The extension is what follows the last dot. */
  lemma ExtensionAfterLastDot(base: string, ext: string)
    requires '.' !in ext
    ensures Extension(base + "." + ext) == Lower(ext)
  {
    SplitAppendSep(base, ext, '.');
    SplitNoSep(ext, '.');
    assert base + "." + ext == base + ['.'] + ext;
  }

  /** A name without a dot is tested as a whole, so a file named `png` passes on its name alone. */
  lemma DotlessNameIsItsOwnExtension(name: string)
    requires '.' !in name
    ensures Extension(name) == Lower(name)
    ensures IsAllowedImageFile("", "png")
  {
    SplitNoSep(name, '.');
    SplitNoSep("png", '.');
    SplitNoSep("", ';');
    assert Lower("png") == "png";
  }

  /** `file.size > uploadImageMaxSizeMB * 1024 * 1024` rejects the file. */
  predicate TooLarge(size: nat, maxMB: nat) {
    size > maxMB * BytesPerMB
  }

  /** A file of exactly the limit is accepted and one byte more is rejected. */
  lemma SizeLimitBoundary(maxMB: nat)
    ensures !TooLarge(maxMB * BytesPerMB, maxMB)
    ensures TooLarge(maxMB * BytesPerMB + 1, maxMB)
  {
  }

  datatype Selection = UnsupportedType | ImageTooLarge(maxMB: nat) | Selected

  /** `handleImageSelect`'s checks: the type first, then the size. */
  function SelectImage(mime: string, name: string, size: nat, maxMB: nat): (r: Selection)
    ensures r == Selected <==> IsAllowedImageFile(mime, name) && size <= maxMB * BytesPerMB
    ensures !IsAllowedImageFile(mime, name) ==> r == UnsupportedType
    ensures r == ImageTooLarge(maxMB) <==> IsAllowedImageFile(mime, name) && TooLarge(size, maxMB)
  {
    if !IsAllowedImageFile(mime, name) then UnsupportedType
    else if TooLarge(size, maxMB) then ImageTooLarge(maxMB)
    else Selected
  }

  // ----- credit hint -----

  /** The translated hint texts; `newUserHintPlural` holds `#` where the balance goes. */
  datatype Hints = Hints(anonymousTrial: string, newUserHintSingle: string, newUserHintPlural: string, creditRequired: string)

  /** `getCreditHintText`; `credits` and `hasPaidOrders` are `None` while still loading. */
  function CreditHint(t: Hints, isLoaded: bool, signedIn: bool, credits: Option<Option<int>>,
                      hasPaidOrders: Option<Option<bool>>): (r: Option<string>)
    ensures !isLoaded ==> r.None?
    ensures isLoaded && !signedIn ==> r == Some(t.anonymousTrial)
    ensures isLoaded && signedIn && (credits.None? || hasPaidOrders.None?) ==> r.None?
    ensures isLoaded && signedIn && credits.Some? && hasPaidOrders.Some? ==> r.Some?
    ensures (isLoaded && signedIn && credits.Some? && hasPaidOrders.Some? &&
             !hasPaidOrders.value.GetOr(false) && credits.value.GetOr(0) == 1) ==>
      r == Some(t.newUserHintSingle)
    ensures (isLoaded && signedIn && credits.Some? && hasPaidOrders.Some? &&
             !hasPaidOrders.value.GetOr(false) && credits.value.GetOr(0) == 2) ==>
      r == Some(ReplaceFirst(t.newUserHintPlural, '#', "2"))
    ensures (isLoaded && signedIn && credits.Some? && hasPaidOrders.Some? &&
             (hasPaidOrders.value.GetOr(false) || credits.value.GetOr(0) <= 0 || credits.value.GetOr(0) > 2)) ==>
      r == Some(t.creditRequired)
  {
    if !isLoaded then None
    else if !signedIn then Some(t.anonymousTrial)
    else if credits.None? || hasPaidOrders.None? then None
    else
      var balance := credits.value.GetOr(0);
      var paid := hasPaidOrders.value.GetOr(false);
      var isNewUser := !paid && balance > 0 && balance <= 2;
      if isNewUser then
        if balance == 1 then Some(t.newUserHintSingle)
        else Some(ReplaceFirst(t.newUserHintPlural, '#', NatToString(balance)))
      else Some(t.creditRequired)
  }

  /** The plural hint puts the balance where its first `#` was. */
  lemma PluralHintShowsBalance(t: Hints, prefix: string, suffix: string)
    requires '#' !in prefix && t.newUserHintPlural == prefix + "#" + suffix
    ensures CreditHint(t, true, true, Some(Some(2)), Some(Some(false))) == Some(prefix + "2" + suffix)
  {
    var s := t.newUserHintPlural;
    ReplaceFirstSpec(s, '#', "2");
    var i := IndexOf(s, '#');
    assert s[|prefix|] == '#';
    assert forall k :: 0 <= k < |prefix| ==> s[k] == prefix[k];
    assert i == |prefix|;
    assert s[..i] == prefix && s[i + 1..] == suffix;
  }

  // ----- generation error routing -----

  /** The fields of an error body the page looks at; `requiresAuth` and `requiresPayment` by truthiness. */
  datatype ErrorBody = ErrorBody(requiresAuth: bool, requiresPayment: bool, balance: Option<int>, error: Option<string>)

  /** The answer of `POST /api/ai-generate` as the page sees it. */
  datatype Answer =
    | Failed(status: nat, body: Option<ErrorBody>)   // not ok; `body` is `None` when it is not JSON
    | Succeeded(text: Option<string>)              // ok, with the `text` field if any
    | Unreachable(message: string)                 // `fetch` itself rejected

  datatype Outcome =
    | NoImageUploaded
    | OpenSignUp
    | LoginRequired
    | CreditModal(balance: int)
    | TimedOut
    | GenerationFailed(description: string)
    | Narration(text: string)

  function FailedDescription(message: string): string {
    "Failed to generate narration: " + message
  }

  /** `handleGenerate` after its request: which dialog or result the page shows. */
  function RouteGeneration(uploadedImageUrl: Option<string>, answer: Answer, canOpenSignUp: bool): (r: Outcome)
    ensures !Truthy(uploadedImageUrl) ==> r == NoImageUploaded
    ensures Truthy(uploadedImageUrl) && answer.Failed? && answer.body.Some? && answer.body.value.requiresAuth ==>
      r == (if canOpenSignUp then OpenSignUp else LoginRequired)
    ensures (Truthy(uploadedImageUrl) && answer.Failed? && answer.body.Some? && !answer.body.value.requiresAuth &&
             answer.body.value.requiresPayment) ==>
      r == CreditModal(answer.body.value.balance.GetOr(0))
    ensures (Truthy(uploadedImageUrl) && answer.Failed? && answer.body.Some? && !answer.body.value.requiresAuth &&
             !answer.body.value.requiresPayment && answer.body.value.error == Some(TimeoutMessage)) ==>
      r == TimedOut
    ensures Truthy(uploadedImageUrl) && answer.Failed? && answer.body.None? ==> r == GenerationFailed(FailedDescription(UnknownError))
    ensures r.Narration? <==> Truthy(uploadedImageUrl) && answer.Succeeded? && Truthy(answer.text)
    ensures r == TimedOut ==> Truthy(uploadedImageUrl) && (answer.Failed? || answer.Unreachable?)
  {
    if !Truthy(uploadedImageUrl) then NoImageUploaded
    else
      match answer
      case Failed(status, body) =>
        var data := body.GetOr(ErrorBody(false, false, None, Some(UnknownError)));
        if data.requiresAuth then (if canOpenSignUp then OpenSignUp else LoginRequired)
        else if data.requiresPayment then CreditModal(data.balance.GetOr(0))
        else if data.error == Some(TimeoutMessage) then TimedOut
        else Caught(OrElse(data.error, "HTTP " + NatToString(status)))
      case Succeeded(text) =>
        if Truthy(text) then Narration(text.value) else Caught(NoTextReceived)
      case Unreachable(message) => Caught(message)
  }

  /** The `catch` of `handleGenerate`: the timeout message gets its own dialog. */
  function Caught(message: string): (r: Outcome)
    ensures r == TimedOut <==> message == TimeoutMessage
    ensures r != TimedOut ==> r == GenerationFailed(FailedDescription(message))
  {
    if message == TimeoutMessage then TimedOut else GenerationFailed(FailedDescription(message))
  }

  /** Sign-in is asked for before payment, whatever else the error says. */
  lemma AuthBeforePayment(url: string, status: nat, balance: Option<int>, error: Option<string>, canOpenSignUp: bool)
    requires url != ""
    ensures RouteGeneration(Some(url), Failed(status, Some(ErrorBody(true, true, balance, error))), canOpenSignUp)
            in {OpenSignUp, LoginRequired}
  {
  }

  /** A failure without an error text reports its status. */
  lemma StatusReportedWithoutError(url: string, status: nat)
    requires url != ""
    ensures RouteGeneration(Some(url), Failed(status, Some(ErrorBody(false, false, None, None))), true) ==
            GenerationFailed(FailedDescription("HTTP " + NatToString(status)))
  {
    assert "HTTP " + NatToString(status) != TimeoutMessage by {
      assert ("HTTP " + NatToString(status))[0] == 'H';
    }
  }
}
