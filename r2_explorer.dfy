/**
 * The R2 Explorer client (`createR2Client`): the URLs it requests and the
 * text of the error it throws for a failed API call. The HTTP calls
 * themselves are not modelled; `encodeURIComponent` and the query-string
 * encoding of `URLSearchParams` are the parameters `encode` and `formEncode`.
 */
module R2Explorer {
  import opened Wrappers
  import opened Text
  import opened Store

  const ApiPath := "/api/buckets/"
  const DownloadQuery := "?download=true"
  const ErrorPrefix := "API Error: "

  datatype R2Config = R2Config(baseUrl: string, bucketName: string, apiToken: string)

  // ----- URLs -----

  /** `baseUrl.replace(/\/+$/, '')`: every trailing `'/'` removed. */
  function CleanBaseUrl(s: string): (r: string)
    ensures r <= s
    ensures !EndsWith(r, "/")
    ensures forall i :: |r| <= i < |s| ==> s[i] == '/'
    decreases |s|
  {
    if s != [] && s[|s| - 1] == '/' then CleanBaseUrl(s[..|s| - 1]) else s
  }

  /** Cleaning a cleaned URL changes nothing. */
  lemma CleanBaseUrlIdempotent(s: string)
    ensures CleanBaseUrl(CleanBaseUrl(s)) == CleanBaseUrl(s)
  {
    var r := CleanBaseUrl(s);
    assert !(r != [] && r[|r| - 1] == '/');
  }

  /** Trailing slashes on the configured base URL make no difference. */
  lemma {:induction false} CleanBaseUrlIgnoresSlashes(s: string, k: nat)
    ensures CleanBaseUrl(s + seq(k, _ => '/')) == CleanBaseUrl(s)
    decreases k
  {
    if k > 0 {
      var t := s + seq(k, _ => '/');
      assert t[..|t| - 1] == s + seq(k - 1, _ => '/');
      CleanBaseUrlIgnoresSlashes(s, k - 1);
    } else {
      assert s + seq(0, _ => '/') == s;
    }
  }

  function BucketUrl(cfg: R2Config): string {
    CleanBaseUrl(cfg.baseUrl) + ApiPath + cfg.bucketName
  }

  /** The URL of the generic `request` helper for an endpoint such as `/share`. */
  function RequestUrl(cfg: R2Config, endpoint: string): (r: string)
    ensures r == CleanBaseUrl(cfg.baseUrl) + ApiPath + cfg.bucketName + endpoint
    ensures !EndsWith(CleanBaseUrl(cfg.baseUrl), "/")
  {
    BucketUrl(cfg) + endpoint
  }

  /** `getUrl`: the file's URL, with `?download=true` iff a download is forced. */
  function GetUrl(cfg: R2Config, encode: string -> string, filename: string, forceDownload: bool): (r: string)
    ensures StartsWith(r, CleanBaseUrl(cfg.baseUrl) + ApiPath + cfg.bucketName + "/" + encode(filename))
    ensures forceDownload <==> r == CleanBaseUrl(cfg.baseUrl) + ApiPath + cfg.bucketName + "/" + encode(filename) + DownloadQuery
  {
    var url := BucketUrl(cfg) + "/" + encode(filename);
    var r := if forceDownload then url + DownloadQuery else url;
    assert r[..|url|] == url;
    assert !forceDownload ==> |r| < |url + DownloadQuery|;
    r
  }

  /** The URL `upload` sends the file to. */
  function UploadUrl(cfg: R2Config, encode: string -> string, filename: string): string {
    CleanBaseUrl(cfg.baseUrl) + ApiPath + cfg.bucketName + "/" + encode(filename)
  }

  /** The URL `download` fetches. */
  function DownloadUrl(cfg: R2Config, encode: string -> string, filename: string): string {
    CleanBaseUrl(cfg.baseUrl) + ApiPath + cfg.bucketName + "/" + encode(filename) + DownloadQuery
  }

  /** `upload` and `download` use exactly the URLs `getUrl` hands out. */
  lemma TransferUrlsAreGetUrls(cfg: R2Config, encode: string -> string, filename: string)
    ensures UploadUrl(cfg, encode, filename) == GetUrl(cfg, encode, filename, false)
    ensures DownloadUrl(cfg, encode, filename) == GetUrl(cfg, encode, filename, true)
    ensures UploadUrl(cfg, encode, filename) != DownloadUrl(cfg, encode, filename)
  {
    var d := DownloadUrl(cfg, encode, filename);
    assert |d| == |UploadUrl(cfg, encode, filename)| + |DownloadQuery|;
  }

  /**
   * `list`: the `files` URL with `prefix` set when truthy and then `limit`
   * set when non-zero, written as `toString` writes an integer; `URL`
   * normalisation of the base is not modelled.
   */
  function ListUrl(cfg: R2Config, formEncode: string -> string, prefix: Option<string>, limit: Option<int>): (r: string)
    ensures StartsWith(r, BucketUrl(cfg) + "/files")
    ensures !Truthy(prefix) && (limit.None? || limit.value == 0) ==> r == BucketUrl(cfg) + "/files"
    ensures Truthy(prefix) && (limit.None? || limit.value == 0) ==>
      r == BucketUrl(cfg) + "/files" + "?" + ("prefix=" + formEncode(prefix.value))
    ensures !Truthy(prefix) && limit.Some? && limit.value != 0 ==>
      r == BucketUrl(cfg) + "/files" + "?" + ("limit=" + IntToString(limit.value))
    ensures Truthy(prefix) && limit.Some? && limit.value != 0 ==>
      r == BucketUrl(cfg) + "/files" + "?" + ("prefix=" + formEncode(prefix.value)) + "&" + ("limit=" + IntToString(limit.value))
  {
    var base := BucketUrl(cfg) + "/files";
    var prefixParam := if Truthy(prefix) then ["prefix=" + formEncode(prefix.value)] else [];
    var limitParam := if limit.Some? && limit.value != 0 then ["limit=" + IntToString(limit.value)] else [];
    var params := prefixParam + limitParam;
    assert |params| == |prefixParam| + |limitParam|;
    assert prefixParam != [] ==> params[0] == prefixParam[0];
    assert prefixParam == [] ==> params == limitParam;
    assert prefixParam != [] && limitParam != [] ==> params[1] == limitParam[0];
    WithQuery(base, params)
  }

  /** `url.toString()` after setting `params` in order on a URL without a query. */
  function WithQuery(base: string, params: seq<string>): (r: string)
    ensures StartsWith(r, base)
    ensures params == [] ==> r == base
    ensures |params| == 1 ==> r == base + "?" + params[0]
    ensures |params| == 2 ==> r == base + "?" + params[0] + "&" + params[1]
  {
    var r := if params == [] then base else base + "?" + Join(params, "&");
    assert r[..|base|] == base;
    assert |params| == 2 ==> Join(params, "&") == params[0] + "&" + params[1];
    assert |params| == 2 ==> r == base + "?" + params[0] + "&" + params[1];
    r
  }

  /** The JSON body `share` posts: the file name, and `expires_in` when truthy. */
  function ShareBody(filename: string, expiresIn: Option<int>): (r: Json)
    ensures r.JObj? && "filename" in r.fields && r.fields["filename"] == JStr(filename)
    ensures "expires_in" in r.fields <==> expiresIn.Some? && expiresIn.value != 0
  {
    var fields := map["filename" := JStr(filename)];
    JObj(if expiresIn.Some? && expiresIn.value != 0 then fields["expires_in" := JNum(expiresIn.value)] else fields)
  }

  // ----- error text -----

  /** JavaScript truthiness of a JSON value. */
  predicate JsonTruthy(j: Json) {
    match j
    case JNull => false
    case JBool(b) => b
    case JNum(n) => n != 0
    case JStr(s) => s != ""
    case _ => true
  }

  function IntToString(n: int): string {
    if n < 0 then "-" + NatToString(-n) else NatToString(n)
  }

  /** A JSON value as a template literal renders it (an array joins its items with `,`, `null` as empty). */
  function Render(j: Json): string
    decreases j
  {
    match j
    case JNull => "null"
    case JBool(b) => if b then "true" else "false"
    case JNum(n) => IntToString(n)
    case JStr(s) => s
    case JObj(_) => "[object Object]"
    case JArr(items) =>
      Join(seq(|items|, i requires 0 <= i < |items| => if items[i].JNull? then "" else Render(items[i])), ",")
  }

  /** Property `key` of a parsed value; only an object has named properties. */
  function Property(j: Json, key: string): Option<Json> {
    if j.JObj? && key in j.fields then Some(j.fields[key]) else None
  }

  function HttpStatus(status: nat): string {
    "HTTP " + NatToString(status)
  }

  /**
   * The part after `API Error: `. `parsed` is the body as `JSON.parse` reads
   * it, `None` when it throws; a `null` body throws on property access and
   * takes the same path as unparsable text.
   */
  function ErrorDetail(text: string, parsed: Option<Json>, status: nat): (r: string)
    ensures parsed.Some? && parsed.value.JObj? && Property(parsed.value, "message").Some? &&
            parsed.value.fields["message"].JStr? && parsed.value.fields["message"].s != "" ==>
      r == parsed.value.fields["message"].s
    ensures (parsed.Some? && parsed.value.JObj? && !(Property(parsed.value, "message").Some? &&
             JsonTruthy(parsed.value.fields["message"])) && Property(parsed.value, "error").Some? &&
             parsed.value.fields["error"].JStr? && parsed.value.fields["error"].s != "") ==>
      r == parsed.value.fields["error"].s
    ensures parsed.Some? && !parsed.value.JNull? && !parsed.value.JObj? ==> r == HttpStatus(status)
    ensures (parsed.Some? && parsed.value.JObj? &&
             !(Property(parsed.value, "message").Some? && JsonTruthy(parsed.value.fields["message"])) &&
             !(Property(parsed.value, "error").Some? && JsonTruthy(parsed.value.fields["error"]))) ==>
      r == HttpStatus(status)
    ensures parsed.Some? && parsed.value.JObj? && Property(parsed.value, "message").Some? &&
            JsonTruthy(parsed.value.fields["message"]) ==>
      r == Render(parsed.value.fields["message"])
    ensures (parsed.Some? && parsed.value.JObj? && !(Property(parsed.value, "message").Some? &&
             JsonTruthy(parsed.value.fields["message"])) && Property(parsed.value, "error").Some? &&
             JsonTruthy(parsed.value.fields["error"])) ==>
      r == Render(parsed.value.fields["error"])
    ensures (parsed.None? || parsed == Some(JNull)) ==> r == (if text != "" then text else HttpStatus(status))
  {
    if parsed.Some? && !parsed.value.JNull? then
      var message := Property(parsed.value, "message");
      var error := Property(parsed.value, "error");
      if message.Some? && JsonTruthy(message.value) then Render(message.value)
      else if error.Some? && JsonTruthy(error.value) then Render(error.value)
      else HttpStatus(status)
    else if text != "" then text
    else HttpStatus(status)
  }

  /** The message of the error a failed API call throws. */
  function ErrorMessage(text: string, parsed: Option<Json>, status: nat): (r: string)
    ensures StartsWith(r, ErrorPrefix)
    ensures r[|ErrorPrefix|..] == ErrorDetail(text, parsed, status)
  {
    var detail := ErrorDetail(text, parsed, status);
    var r := ErrorPrefix + detail;
    assert r[..|ErrorPrefix|] == ErrorPrefix;
    r
  }

  /** `message` wins over `error`, whatever `error` holds. */
  lemma MessageBeatsError(text: string, message: string, error: Json, status: nat)
    requires message != ""
    ensures ErrorMessage(text, Some(JObj(map["message" := JStr(message), "error" := error])), status) ==
            ErrorPrefix + message
  {
  }

  /** An empty body that is not JSON reports the status. */
  lemma EmptyBodyReportsStatus(status: nat)
    ensures ErrorMessage("", None, status) == ErrorPrefix + HttpStatus(status)
  {
  }
}
