/**
 * The anonymous free trial: a visitor without an account is identified by
 * an HMAC fingerprint stored in the `anon_id` cookie, may use the generator
 * `MaxFreeUses` times, and is rate-limited on its recent `consume` logs.
 * HMAC-SHA256 is an uninterpreted function; cookies become a parameter
 * (the cookie read) and an out-parameter (the cookie set).
 */
module Anonymous {
  import opened Wrappers
  import opened Text
  import opened Seqs
  import opened Store

  const TrialCredits := 1
  const MaxFreeUses := 1
  /** The rate-limit window: one hour in milliseconds. */
  const RateWindowMs := 60 * 60 * 1000
  const RateLimitPerWindow := 3

  const SecretMissing := "ANON_ID_SECRET is not configured"
  const DevFallbackIp := "127.0.0.1"
  const Unknown := "unknown"
  const UsageNotFound := "Anonymous usage not found"
  const TrialExceeded := "Free trial limit exceeded"
  const UpdateFailed := "Failed to update usage count"
  const TooManyRequests := "Too many requests. Please try again later."

  /** HMAC-SHA256 of a message under a secret, base64url-encoded. */
  type Hmac = (string, string) -> string

  datatype AnonUsageInfo = AnonUsageInfo(anonId: string, remainingFree: int, usageCount: int)
  datatype AnonIdentity = AnonIdentity(anonId: string, ipHash: string, ipSubnetHash: string)

  /** The request headers and cookie the trial reads. */
  datatype AnonRequest = AnonRequest(
    cookie: Option<string>,
    vercelIp: Option<string>,
    realIp: Option<string>,
    cfConnectingIp: Option<string>,
    userAgent: Option<string>,
    acceptLanguage: Option<string>)

  /**
   * The server side: `ANON_ID_SECRET`, whether `NODE_ENV` is development,
   * the time zone `Intl` resolves (`None` when it throws) and the HMAC.
   */
  datatype AnonEnv = AnonEnv(secret: Option<string>, development: bool, timezone: Option<string>, hmac: Hmac)

  function Max0(n: int): int {
    if n < 0 then 0 else n
  }

  // ----- the subnet -----

  /** An IPv6 text keeps its first four colon fields, an IPv4 text its first three dot fields. */
  function IPSubnet(ip: string): string {
    if ':' in ip then Join(Take(Split(ip, ':'), 4), ":")
    else Join(Take(Split(ip, '.'), 3), ".")
  }

  /** The subnet is always a leading part of the address text. */
  lemma IPSubnetIsPrefix(ip: string)
    ensures StartsWith(ip, IPSubnet(ip))
  {
    if ':' in ip {
      JoinTakeSplitIsPrefix(ip, ':', 4);
    } else {
      JoinTakeSplitIsPrefix(ip, '.', 3);
    }
  }

  /** Keeping the first `k` fields of `p + sep + rest`, where `p` has `k` fields, gives `p`. */
  lemma LeadingFields(p: string, rest: string, sep: char, k: nat)
    requires |Split(p, sep)| == k
    ensures Join(Take(Split(p + [sep] + rest, sep), k), [sep]) == p
  {
    SplitAppendSep(p, rest, sep);
    assert Take(Split(p + [sep] + rest, sep), k) == Split(p, sep);
    JoinSplit(p, sep);
  }

  /** Three dot-free fields joined by dots split back into three fields. */
  lemma DottedTriple(a: string, b: string, c: string)
    requires '.' !in a && '.' !in b && '.' !in c
    ensures |Split(a + "." + b + "." + c, '.')| == 3
  {
    assert a + "." + b == a + ['.'] + b;
    assert a + "." + b + "." + c == (a + "." + b) + ['.'] + c;
    SplitAppendSep(a + "." + b, c, '.');
    SplitAppendSep(a, b, '.');
    SplitNoSep(a, '.');
    SplitNoSep(b, '.');
    SplitNoSep(c, '.');
  }

  /** A dotted quad `a.b.c.d` maps to `a.b.c`: the /24 network, whatever the host part. */
  lemma IPv4Subnet(a: string, b: string, c: string, d: string)
    requires '.' !in a && '.' !in b && '.' !in c
    requires ':' !in a + b + c + d
    ensures IPSubnet(a + "." + b + "." + c + "." + d) == a + "." + b + "." + c
  {
    var p := a + "." + b + "." + c;
    var ip := p + "." + d;
    assert ':' !in a && ':' !in b && ':' !in c && ':' !in d by {
      assert a + b + c + d == a + (b + (c + d));
    }
    assert ':' !in ".";
    assert ':' !in ip;
    DottedTriple(a, b, c);
    LeadingFields(p, d, '.', 3);
    assert ip == p + ['.'] + d;
  }

  /** An IPv6 text with at most four colon fields is its own subnet. */
  lemma ShortIPv6IsWhole(ip: string)
    requires ':' in ip && |Split(ip, ':')| <= 4
    ensures IPSubnet(ip) == ip
  {
    JoinSplit(ip, ':');
  }

  /** An IPv6 text of four colon fields `a:b:c:h` is its own subnet. */
  lemma FourFieldIPv6(a: string, b: string, c: string, h: string)
    requires ':' !in a && ':' !in b && ':' !in c && ':' !in h
    ensures IPSubnet(a + ":" + b + ":" + c + ":" + h) == a + ":" + b + ":" + c + ":" + h
  {
    var ip := a + ":" + b + ":" + c + ":" + h;
    assert ip == a + [':'] + (b + [':'] + (c + [':'] + h));
    SplitAppendSep(c, h, ':');
    SplitAppendSep(b, c + [':'] + h, ':');
    SplitAppendSep(a, b + [':'] + (c + [':'] + h), ':');
    SplitNoSep(a, ':');
    SplitNoSep(b, ':');
    SplitNoSep(c, ':');
    SplitNoSep(h, ':');
    assert ip[|a|] == ':';
    ShortIPv6IsWhole(ip);
  }

  /**
   * Compressed IPv6 text (section 2.2 of RFC 4291) defeats the intent of a
   * /64 subnet: two hosts of the same /64 get different subnets.
   */
  lemma CompressedIPv6NotSlash64()
    ensures IPSubnet("2001:db8::1") == "2001:db8::1"
    ensures IPSubnet("2001:db8::2") != IPSubnet("2001:db8::1")
  {
    CompressedHostIsWhole("1");
    CompressedHostIsWhole("2");
    assert "2001:db8::" + "1" == "2001:db8::1";
    assert "2001:db8::" + "2" == "2001:db8::2";
    assert "2001:db8::1"[10] != "2001:db8::2"[10];
  }

  /** `2001:db8::h` has four colon fields, so it is its own subnet. */
  lemma CompressedHostIsWhole(h: string)
    requires ':' !in h
    ensures IPSubnet("2001:db8::" + h) == "2001:db8::" + h
  {
    var a, b := "2001", "db8";
    assert ':' !in a && ':' !in b by {
      assert forall i :: 0 <= i < |a| ==> a[i] != ':';
      assert forall i :: 0 <= i < |b| ==> b[i] != ':';
    }
    FourFieldIPv6(a, b, "", h);
    assert a + ":" + b + ":" + "" + ":" == "2001:db8::";
  }

  // ----- the fingerprint -----

  /** `acceptLanguage?.split(',')[0] || 'unknown'`. */
  function PrimaryLanguage(acceptLanguage: Option<string>): string {
    if acceptLanguage.None? then Unknown
    else OrElse(Some(Split(acceptLanguage.value, ',')[0]), Unknown)
  }

  /** The language is the first entry of the header; the quality list after it is ignored. */
  lemma PrimaryLanguageFirstEntry(first: string, rest: string)
    requires ',' !in first && first != ""
    ensures PrimaryLanguage(Some(first + "," + rest)) == first
    ensures PrimaryLanguage(Some(first)) == first
  {
    SplitAppendSep(first, rest, ',');
    SplitNoSep(first, ',');
  }

  /** No header, or one that starts with a comma, gives `unknown`. */
  lemma PrimaryLanguageUnknown(rest: string)
    ensures PrimaryLanguage(None) == Unknown
    ensures PrimaryLanguage(Some("," + rest)) == Unknown
  {
    SplitAppendSep("", rest, ',');
    assert "" + [','] + rest == "," + rest;
  }

  /** The resolved time zone, `UTC` when `Intl` throws. */
  function TimeZone(tz: Option<string>): string {
    if tz.Some? then tz.value else "UTC"
  }

  /** The fingerprint text that is hashed into the id. */
  function Payload(ipHash: string, ua: string, lang: string, tz: string): string {
    ipHash + "|" + ua + "|" + lang + "|" + tz
  }

  /** The payload splits back into its four fields when none contains `|`. */
  lemma PayloadFields(ipHash: string, ua: string, lang: string, tz: string)
    requires '|' !in ipHash && '|' !in ua && '|' !in lang && '|' !in tz
    ensures Split(Payload(ipHash, ua, lang, tz), '|') == [ipHash, ua, lang, tz]
  {
    assert Payload(ipHash, ua, lang, tz) == ipHash + ['|'] + (ua + ['|'] + (lang + ['|'] + tz));
    SplitAppendSep(lang, tz, '|');
    SplitAppendSep(ua, lang + ['|'] + tz, '|');
    SplitAppendSep(ipHash, ua + ['|'] + (lang + ['|'] + tz), '|');
    SplitNoSep(ipHash, '|');
    SplitNoSep(ua, '|');
    SplitNoSep(lang, '|');
    SplitNoSep(tz, '|');
  }

  /** Distinct fingerprints without `|` give distinct payloads. */
  lemma PayloadInjective(h1: string, u1: string, l1: string, t1: string,
                         h2: string, u2: string, l2: string, t2: string)
    requires '|' !in h1 && '|' !in u1 && '|' !in l1 && '|' !in t1
    requires '|' !in h2 && '|' !in u2 && '|' !in l2 && '|' !in t2
    requires Payload(h1, u1, l1, t1) == Payload(h2, u2, l2, t2)
    ensures h1 == h2 && u1 == u2 && l1 == l2 && t1 == t2
  {
    PayloadFields(h1, u1, l1, t1);
    PayloadFields(h2, u2, l2, t2);
  }

  /**
   * `generateAnonId`: throws without a secret, yields no id without a trusted
   * IP, and otherwise hashes the IP, its subnet and the fingerprint payload.
   */
  function GenerateAnonId(hmac: Hmac, secret: Option<string>, trustedIp: Option<string>,
                          userAgent: Option<string>, acceptLanguage: Option<string>,
                          timezone: Option<string>): (r: Outcome<Option<AnonIdentity>>)
    ensures r.Throw? <==> !Truthy(secret)
    ensures r.Throw? ==> r.message == SecretMissing
    ensures r.Return? ==> (r.value.Some? <==> Truthy(trustedIp))
    ensures r.Return? && r.value.Some? ==>
      r.value.value.ipHash == hmac(secret.value, trustedIp.value) &&
      r.value.value.ipSubnetHash == hmac(secret.value, IPSubnet(trustedIp.value)) &&
      r.value.value.anonId == hmac(secret.value, Payload(r.value.value.ipHash, OrElse(userAgent, Unknown),
                                                         PrimaryLanguage(acceptLanguage), TimeZone(timezone)))
  {
    if !Truthy(secret) then Throw(SecretMissing)
    else if !Truthy(trustedIp) then Return(None)
    else
      var key := secret.value;
      var ipHash := hmac(key, trustedIp.value);
      var subnetHash := hmac(key, IPSubnet(trustedIp.value));
      var payload := Payload(ipHash, OrElse(userAgent, Unknown), PrimaryLanguage(acceptLanguage), TimeZone(timezone));
      Return(Some(AnonIdentity(hmac(key, payload), ipHash, subnetHash)))
  }

  /**
   * The id is a function of the IP, the user agent (absent and empty both
   * read `unknown`), the first language and the time zone: a visitor who
   * changes only the quality list of `accept-language` keeps the same id.
   */
  lemma SameVisitorSameId(hmac: Hmac, secret: Option<string>, ip: Option<string>,
                          lang: string, rest1: string, rest2: string, tz: Option<string>)
    requires ',' !in lang && lang != ""
    ensures GenerateAnonId(hmac, secret, ip, None, Some(lang + "," + rest1), tz) ==
            GenerateAnonId(hmac, secret, ip, Some(""), Some(lang + "," + rest2), tz)
    ensures GenerateAnonId(hmac, secret, ip, None, Some(lang), tz) ==
            GenerateAnonId(hmac, secret, ip, Some(Unknown), Some(lang + "," + rest1), tz)
  {
    PrimaryLanguageFirstEntry(lang, rest1);
    PrimaryLanguageFirstEntry(lang, rest2);
  }

  /** The first truthy of the forwarding headers, `127.0.0.1` in development. */
  function TrustedIp(req: AnonRequest, development: bool): (r: Option<string>)
    ensures Truthy(r) <==> Truthy(req.vercelIp) || Truthy(req.realIp) || Truthy(req.cfConnectingIp) || development
    ensures Truthy(req.vercelIp) ==> r == req.vercelIp
    ensures !Truthy(req.vercelIp) && Truthy(req.realIp) ==> r == req.realIp
    ensures !Truthy(req.vercelIp) && !Truthy(req.realIp) && Truthy(req.cfConnectingIp) ==> r == req.cfConnectingIp
    ensures !Truthy(req.vercelIp) && !Truthy(req.realIp) && !Truthy(req.cfConnectingIp) ==>
      r == if development then Some(DevFallbackIp) else None
  {
    if Truthy(req.vercelIp) then req.vercelIp
    else if Truthy(req.realIp) then req.realIp
    else if Truthy(req.cfConnectingIp) then req.cfConnectingIp
    else if development then Some(DevFallbackIp)
    else None
  }

  // ----- the usage row -----

  /** The row inserted for a newly fingerprinted visitor. */
  function FreshRow(id: AnonIdentity, req: AnonRequest, now: int): AnonUsage {
    AnonUsage(id.anonId, 0, None, Some(id.ipHash), Some(id.ipSubnetHash), req.userAgent,
              Some(map["ua" := OptStr(req.userAgent), "lang" := OptStr(req.acceptLanguage),
                       "created_at" := JNum(now)]))
  }

  /** The row re-created for a cookie whose row has disappeared. */
  function RecoveredRow(anonId: string, req: AnonRequest, now: int): AnonUsage {
    AnonUsage(anonId, 0, None, None, None, req.userAgent,
              Some(map["recovered" := JBool(true), "created_at" := JNum(now)]))
  }

  /** No visitor has used more than the free allowance. */
  predicate WithinTrial(anon: map<string, AnonUsage>) {
    forall k :: k in anon ==> anon[k].usageCount <= MaxFreeUses
  }

  /** The table after an insert whose error is ignored. */
  function InsertedOrKept(anon: map<string, AnonUsage>, row: AnonUsage, fault: Fault): map<string, AnonUsage> {
    if fault.None? && row.anonId !in anon then anon[row.anonId := row] else anon
  }

  /**
   * `getOrCreateAnonUsage`. Without a cookie a fresh id is generated, set as
   * the cookie and inserted; with one, its row is read, re-created when it
   * is missing, and its count reported. Insert errors are only logged.
   */
  method GetOrCreateAnonUsage(db: Db, req: AnonRequest, env: AnonEnv, now: int,
                              readFault: Fault, insertFault: Fault)
    returns (r: Outcome<Option<AnonUsageInfo>>, cookieSet: Option<string>)
    requires db.Valid()
    modifies db
    ensures db.Valid()
    ensures db.State() == old(db.State()).(anon := db.anon)
    ensures WithinTrial(old(db.anon)) ==> WithinTrial(db.anon)
    ensures r.Return? && r.value.Some? ==>
      r.value.value.remainingFree == Max0(MaxFreeUses - r.value.value.usageCount)
    ensures !Truthy(req.cookie) ==>
      var g := GenerateAnonId(env.hmac, env.secret, TrustedIp(req, env.development), req.userAgent,
                              req.acceptLanguage, env.timezone);
      (g.Throw? ==> r == Throw(g.message) && cookieSet.None? && db.anon == old(db.anon)) &&
      (g == Return(None) ==> r == Return(None) && cookieSet.None? && db.anon == old(db.anon)) &&
      (g.Return? && g.value.Some? ==>
         r == Return(Some(AnonUsageInfo(g.value.value.anonId, MaxFreeUses, 0))) &&
         cookieSet == Some(g.value.value.anonId) &&
         db.anon == InsertedOrKept(old(db.anon), FreshRow(g.value.value, req, now), insertFault))
    ensures Truthy(req.cookie) ==>
      cookieSet.None? && r.Return? && r.value.Some? && r.value.value.anonId == req.cookie.value
    ensures Truthy(req.cookie) && readFault.None? && req.cookie.value in old(db.anon) ==>
      var n := old(db.anon)[req.cookie.value].usageCount;
      r == Return(Some(AnonUsageInfo(req.cookie.value, Max0(MaxFreeUses - n), n))) && db.anon == old(db.anon)
    ensures Truthy(req.cookie) &&
            ((readFault.None? && req.cookie.value !in old(db.anon)) ||
             (readFault.Some? && readFault.value.code == NotFoundCode)) ==>
      r == Return(Some(AnonUsageInfo(req.cookie.value, MaxFreeUses, 0))) &&
      db.anon == InsertedOrKept(old(db.anon), RecoveredRow(req.cookie.value, req, now), insertFault)
    ensures Truthy(req.cookie) && readFault.Some? && readFault.value.code != NotFoundCode ==>
      r == Return(Some(AnonUsageInfo(req.cookie.value, MaxFreeUses, 0))) && db.anon == old(db.anon)
  {
    cookieSet := None;
    if !Truthy(req.cookie) {
      var g := GenerateAnonId(env.hmac, env.secret, TrustedIp(req, env.development), req.userAgent,
                              req.acceptLanguage, env.timezone);
      if g.Throw? {
        return Throw(g.message), None;
      }
      if g.value.None? {
        return Return(None), None;
      }
      var id := g.value.value;
      cookieSet := Some(id.anonId);
      var _ := db.InsertAnon(FreshRow(id, req, now), insertFault);
      return Return(Some(AnonUsageInfo(id.anonId, MaxFreeUses, 0))), cookieSet;
    }
    var anonId := req.cookie.value;
    var row := if anonId in db.anon then Some(db.anon[anonId]) else None;
    var read := Single(row, readFault);
    if read.Failure? && read.error.code == NotFoundCode {
      var _ := db.InsertAnon(RecoveredRow(anonId, req, now), insertFault);
      return Return(Some(AnonUsageInfo(anonId, MaxFreeUses, 0))), None;
    }
    var usageCount := if read.Success? then read.value.usageCount else 0;
    r := Return(Some(AnonUsageInfo(anonId, Max0(MaxFreeUses - usageCount), usageCount)));
  }

  /** The metadata of a trial consumption log. */
  function TrialMetadata(usageCount: int): Extra {
    map["trial" := JBool(true), "usage_count" := JNum(usageCount)]
  }

  /**
   * `consumeAnonCredit`: reads the visitor's count, refuses at the ceiling,
   * writes the incremented count and then appends a `consume` log whose
   * failure is only logged.
   */
  method ConsumeAnonCredit(db: Db, anonId: string, requestId: string, now: int,
                           fetchFault: Fault, updateFault: Fault, logFault: Fault)
    returns (success: bool, error: Option<string>)
    requires db.Valid()
    modifies db
    ensures db.Valid()
    ensures db.State() == old(db.State()).(anon := db.anon, logs := db.logs)
    ensures success <==> error.None?
    ensures success <==>
      fetchFault.None? && anonId in old(db.anon) && old(db.anon)[anonId].usageCount < MaxFreeUses &&
      updateFault.None?
    ensures fetchFault.Some? || anonId !in old(db.anon) ==>
      error == Some(UsageNotFound) && db.State() == old(db.State())
    ensures fetchFault.None? && anonId in old(db.anon) && old(db.anon)[anonId].usageCount >= MaxFreeUses ==>
      error == Some(TrialExceeded) && db.State() == old(db.State())
    ensures fetchFault.None? && anonId in old(db.anon) && old(db.anon)[anonId].usageCount < MaxFreeUses &&
            updateFault.Some? ==>
      error == Some(UpdateFailed) && db.State() == old(db.State())
    ensures success ==>
      var row := old(db.anon)[anonId];
      db.anon == old(db.anon)[anonId := row.(usageCount := row.usageCount + 1, lastUsedAt := Some(now))]
    ensures success && logFault.None? && !RefTaken(old(db.logs), Consume, requestId) ==>
      db.logs == old(db.logs) + [CreditLog(|old(db.logs)| + 1, None, Some(anonId), Consume, Confirmed,
                                           -TrialCredits, Some(requestId),
                                           Some(TrialMetadata(old(db.anon)[anonId].usageCount + 1)), now, now)]
    ensures success && (logFault.Some? || RefTaken(old(db.logs), Consume, requestId)) ==>
      db.logs == old(db.logs)
    ensures WithinTrial(old(db.anon)) ==> WithinTrial(db.anon)
  {
    var row := if anonId in db.anon then Some(db.anon[anonId]) else None;
    var read := Single(row, fetchFault);
    if read.Failure? {
      return false, Some(UsageNotFound);
    }
    var usage := read.value;
    if usage.usageCount >= MaxFreeUses {
      return false, Some(TrialExceeded);
    }
    var updateError := db.UpdateAnonUsage(anonId, usage.usageCount + 1, now, updateFault);
    if updateError.Some? {
      return false, Some(UpdateFailed);
    }
    var _ := db.InsertAnonLog(anonId, Consume, Confirmed, -TrialCredits, Some(requestId),
                              Some(TrialMetadata(usage.usageCount + 1)), now, logFault);
    success, error := true, None;
  }

  // ----- the rate limit -----

  /** A `consume` log of this visitor created at or after `since`. */
  predicate RecentConsume(anonId: string, since: int, l: CreditLog) {
    l.anonId == Some(anonId) && l.kind == Consume && l.createdAt >= since
  }

  /** The rows the rate-limit query counts: this visitor's consumptions in the last hour. */
  function RecentConsumes(logs: seq<CreditLog>, anonId: string, now: int): nat {
    Count(logs, l => RecentConsume(anonId, now - RateWindowMs, l))
  }

  datatype RateDecision = RateDecision(allowed: bool, reason: Option<string>)

  /** `checkAnonRateLimit`: at most three consumptions an hour; a failed query allows. */
  function CheckAnonRateLimit(logs: seq<CreditLog>, anonId: string, now: int, fault: Fault): (r: RateDecision)
    ensures r.allowed <==> fault.Some? || RecentConsumes(logs, anonId, now) < RateLimitPerWindow
    ensures r.allowed ==> r.reason.None?
    ensures !r.allowed ==> r.reason == Some(TooManyRequests)
  {
    if fault.Some? then RateDecision(true, None)
    else if RecentConsumes(logs, anonId, now) >= RateLimitPerWindow then RateDecision(false, Some(TooManyRequests))
    else RateDecision(true, None)
  }

  /** A trial consumption logged now counts toward the limit for the next hour. */
  lemma {:induction false} ConsumeCountsTowardLimit(logs: seq<CreditLog>, l: CreditLog, anonId: string, later: int)
    requires l.anonId == Some(anonId) && l.kind == Consume
    requires l.createdAt <= later < l.createdAt + RateWindowMs
    ensures RecentConsumes(logs + [l], anonId, later) == RecentConsumes(logs, anonId, later) + 1
  {
    var p := (x: CreditLog) => RecentConsume(anonId, later - RateWindowMs, x);
    FilterAppend(logs, [l], p);
    assert Filter([l], p) == [l];
  }

  /** Logs of other visitors or other types never count. */
  lemma {:induction false} OtherLogsDoNotCount(logs: seq<CreditLog>, l: CreditLog, anonId: string, now: int)
    requires l.anonId != Some(anonId) || l.kind != Consume
    ensures RecentConsumes(logs + [l], anonId, now) == RecentConsumes(logs, anonId, now)
  {
    var p := (x: CreditLog) => RecentConsume(anonId, now - RateWindowMs, x);
    FilterAppend(logs, [l], p);
    assert Filter([l], p) == [];
  }

  /** As time passes the window only loses logs: a refused visitor is eventually allowed again. */
  lemma {:induction false} RateLimitRelaxes(logs: seq<CreditLog>, anonId: string, now1: int, now2: int)
    requires now1 <= now2
    ensures RecentConsumes(logs, anonId, now2) <= RecentConsumes(logs, anonId, now1)
    ensures CheckAnonRateLimit(logs, anonId, now1, None).allowed ==> CheckAnonRateLimit(logs, anonId, now2, None).allowed
  {
    CountMonotone(logs, l => RecentConsume(anonId, now2 - RateWindowMs, l),
                        l => RecentConsume(anonId, now1 - RateWindowMs, l));
  }
}
