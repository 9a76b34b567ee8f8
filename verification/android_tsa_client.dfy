/** The Android timestamp client: the list of authorities to try, the retry and fallback
    loop over them, the categories of failure that stop the retries, the display names of
    the known authorities, and the value semantics of a timestamp result. The HTTP
    exchange with an authority, the request encoding and the reply parsing are an oracle:
    one call per attempt either delivers a token or throws with a message. */
module AndroidTsaClient {
  import opened Wrappers
  import opened Text

  // ---------------------------------------------------------------------
  // The result value

  /** A timestamp result; `None` stands for Kotlin's `null`. */
  datatype TimestampResult = TimestampResult(
    success: bool,
    token: Option<seq<Byte>>,
    timestampInfo: Option<string>,
    serverUsed: Option<string>,
    error: Option<string>)

  /** Two's-complement wrap-around of a JVM `Int`. */
  function Int32(x: int): (r: int)
    ensures -0x8000_0000 <= r < 0x8000_0000
    ensures (r - x) % 0x1_0000_0000 == 0
  {
    (x + 0x8000_0000) % 0x1_0000_0000 - 0x8000_0000
  }

  /** A JVM `Byte` is signed. */
  function SignedByte(b: Byte): int {
    if b < 128 then b else b - 256
  }

  /** `Boolean.hashCode`. */
  function BooleanHash(b: bool): int {
    if b then 1231 else 1237
  }

  /** `ByteArray.contentHashCode`: starts at 1, then `31 * h + b` per signed byte. */
  function ContentHash(bs: seq<Byte>): (h: int)
    ensures -0x8000_0000 <= h < 0x8000_0000
  {
    if bs == [] then 1 else Int32(31 * ContentHash(bs[..|bs| - 1]) + SignedByte(bs[|bs| - 1]))
  }

  /** `String.hashCode`: starts at 0, then `31 * h + c` per character. */
  function StringHash(s: string): (h: int)
    ensures -0x8000_0000 <= h < 0x8000_0000
  {
    if s == [] then 0 else Int32(31 * StringHash(s[..|s| - 1]) + s[|s| - 1] as int)
  }

  function OptionHash<T>(o: Option<T>, hash: T -> int): int {
    match o
    case None => 0
    case Some(v) => hash(v)
  }

  /** `TimestampResult.hashCode`: the fields folded with `31 * h + field`. */
  function HashCode(r: TimestampResult): (h: int)
    ensures -0x8000_0000 <= h < 0x8000_0000
  {
    var h0 := BooleanHash(r.success);
    var h1 := Int32(31 * h0 + OptionHash(r.token, ContentHash));
    var h2 := Int32(31 * h1 + OptionHash(r.timestampInfo, StringHash));
    var h3 := Int32(31 * h2 + OptionHash(r.serverUsed, StringHash));
    Int32(31 * h3 + OptionHash(r.error, StringHash))
  }

  /** `TimestampResult.equals`: `other` is `None` for `null` or an object of another class;
      tokens are compared by content. */
  predicate Equals(r: TimestampResult, other: Option<TimestampResult>) {
    match other
    case None => false
    case Some(o) =>
      && r.success == o.success
      && (match r.token
          case Some(t) => o.token.Some? && t == o.token.value
          case None => o.token.None?)
      && r.timestampInfo == o.timestampInfo
      && r.serverUsed == o.serverUsed
      && r.error == o.error
  }

  /** Equality is value equality of all five fields, token bytes included, and equal
      results hash alike. */
  lemma EqualsIsValueEquality(r: TimestampResult, other: Option<TimestampResult>)
    ensures Equals(r, other) <==> other == Some(r)
    ensures Equals(r, other) ==> HashCode(r) == HashCode(other.value)
  {
  }

  // ---------------------------------------------------------------------
  // The authorities

  const MAX_RETRIES: nat := 2

  const TSA_SERVERS: seq<string> := [
    "https://freetsa.org/tsr",
    "http://timestamp.digicert.com",
    "http://timestamp.apple.com/ts01",
    "http://timestamp.sectigo.com",
    "http://timestamp.entrust.net/TSS/RFC3161sha2TS"]

  predicate NoDuplicates(s: seq<string>) {
    forall i, j :: 0 <= i < j < |s| ==> s[i] != s[j]
  }

  /** `distinct()`: the first occurrence of each element, in order. */
  function Distinct(s: seq<string>): (r: seq<string>)
    ensures forall x :: x in r <==> x in s
    ensures NoDuplicates(r)
  {
    if s == [] then []
    else
      var r := Distinct(s[..|s| - 1]);
      if s[|s| - 1] in r then r else r + [s[|s| - 1]]
  }

  /** Without duplicates there is nothing to remove. */
  lemma {:induction false} DistinctKeeps(s: seq<string>)
    requires NoDuplicates(s)
    ensures Distinct(s) == s
  {
    if s != [] {
      var init := s[..|s| - 1];
      assert NoDuplicates(init);
      DistinctKeeps(init);
      assert s[|s| - 1] !in init;
      assert init + [s[|s| - 1]] == s;
    }
  }

  /** The list `buildServerList` starts from, before duplicates are removed. */
  function CandidateServers(primaryTsaUrl: Option<string>): seq<string> {
    if primaryTsaUrl.Some? && IsNotBlank(primaryTsaUrl.value) && primaryTsaUrl.value !in TSA_SERVERS
    then [primaryTsaUrl.value] + TSA_SERVERS
    else TSA_SERVERS
  }

  function ServerList(primaryTsaUrl: Option<string>): seq<string> {
    Distinct(CandidateServers(primaryTsaUrl))
  }

  lemma DefaultsDistinct()
    ensures NoDuplicates(TSA_SERVERS)
  {
  }

  /** A usable primary URL comes first and the five defaults follow in their own order;
      otherwise the list is exactly the defaults. The list never repeats a URL. */
  lemma ServerListShape(primaryTsaUrl: Option<string>)
    ensures var servers := ServerList(primaryTsaUrl);
      var usable := primaryTsaUrl.Some? && IsNotBlank(primaryTsaUrl.value) && primaryTsaUrl.value !in TSA_SERVERS;
      && (usable ==> servers == [primaryTsaUrl.value] + TSA_SERVERS)
      && (!usable ==> servers == TSA_SERVERS)
      && servers[|servers| - |TSA_SERVERS|..] == TSA_SERVERS
      && NoDuplicates(servers)
  {
    DefaultsDistinct();
    var candidates := CandidateServers(primaryTsaUrl);
    assert NoDuplicates(candidates);
    DistinctKeeps(candidates);
  }

  // ---------------------------------------------------------------------
  // Error categories and display names

  /** `categorizeError`: the first matching substring of the exception message decides;
      a missing message is unknown. */
  function CategorizeError(message: Option<string>): string {
    match message
    case None => "UNKNOWN_ERROR"
    case Some(m) =>
      if Contains(m, "405") then "HTTP_405"
      else if Contains(m, "400") then "HTTP_400"
      else if Contains(m, "401") || Contains(m, "403") then "AUTHENTICATION_ERROR"
      else if Contains(m, "timeout") then "TIMEOUT"
      else if Contains(m, "SSL") || Contains(m, "TLS") then "SSL_ERROR"
      else if Contains(m, "UnknownHost") || Contains(m, "Network") then "DNS_ERROR"
      else "UNKNOWN_ERROR"
  }

  /** Each category is chosen exactly when its substrings occur and those of every earlier
      branch do not; a missing message, or one that matches no branch, is unknown. */
  lemma CategorizeFirstMatch(message: Option<string>)
    ensures message.None? ==> CategorizeError(message) == "UNKNOWN_ERROR"
    ensures message.Some? ==>
              var m := message.value;
              var status := Contains(m, "405") || Contains(m, "400") || Contains(m, "401") || Contains(m, "403");
              var transport := Contains(m, "timeout") || Contains(m, "SSL") || Contains(m, "TLS");
              && (CategorizeError(message) == "HTTP_405" <==> Contains(m, "405"))
              && (CategorizeError(message) == "HTTP_400" <==> !Contains(m, "405") && Contains(m, "400"))
              && (CategorizeError(message) == "AUTHENTICATION_ERROR" <==>
                    !Contains(m, "405") && !Contains(m, "400") && (Contains(m, "401") || Contains(m, "403")))
              && (CategorizeError(message) == "TIMEOUT" <==> !status && Contains(m, "timeout"))
              && (CategorizeError(message) == "SSL_ERROR" <==>
                    !status && !Contains(m, "timeout") && (Contains(m, "SSL") || Contains(m, "TLS")))
              && (CategorizeError(message) == "DNS_ERROR" <==>
                    !status && !transport && (Contains(m, "UnknownHost") || Contains(m, "Network")))
              && (CategorizeError(message) == "UNKNOWN_ERROR" <==>
                    !status && !transport && !Contains(m, "UnknownHost") && !Contains(m, "Network"))
  {
  }

  /** The categories after which the remaining attempts on a server are skipped. */
  predicate StopsRetrying(errorType: string) {
    errorType in ["HTTP_405", "HTTP_400", "AUTHENTICATION_ERROR"]
  }

  /** A server is abandoned after a failure exactly when the message mentions one of the
      status codes 405, 400, 401 or 403. */
  lemma StopsRetryingOnStatus(message: Option<string>)
    ensures StopsRetrying(CategorizeError(message)) <==>
            message.Some? && (Contains(message.value, "405") || Contains(message.value, "400") ||
                              Contains(message.value, "401") || Contains(message.value, "403"))
  {
  }

  /** `getTsaServerDisplayName`: the first known domain the URL mentions. */
  function DisplayName(url: string): (name: string)
    ensures name in ["FreeTSA", "DigiCert", "Apple", "Sectigo", "Entrust", "Custom TSA"]
    ensures name == "Custom TSA" <==>
      !Contains(url, "freetsa.org") && !Contains(url, "digicert.com") && !Contains(url, "apple.com") &&
      !Contains(url, "sectigo.com") && !Contains(url, "entrust.net")
  {
    if Contains(url, "freetsa.org") then "FreeTSA"
    else if Contains(url, "digicert.com") then "DigiCert"
    else if Contains(url, "apple.com") then "Apple"
    else if Contains(url, "sectigo.com") then "Sectigo"
    else if Contains(url, "entrust.net") then "Entrust"
    else "Custom TSA"
  }

  /** An occurrence makes `Contains` true; a step in the proof of `FreeTsaNamed`. */
  lemma OccurrenceContains(s: string, p: string, i: nat)
    requires OccursAt(s, p, i)
    ensures Contains(s, p)
  {
  }

  const KNOWN_DOMAINS: seq<string> := ["freetsa.org", "digicert.com", "apple.com", "sectigo.com", "entrust.net"]
  const KNOWN_NAMES: seq<string> := ["FreeTSA", "DigiCert", "Apple", "Sectigo", "Entrust"]

  /** The name is that of the first known domain the URL mentions, in the order of
      `KNOWN_DOMAINS`. */
  lemma DisplayNameFirstMatch(url: string, k: nat)
    requires k < |KNOWN_DOMAINS|
    ensures DisplayName(url) == KNOWN_NAMES[k] <==>
            Contains(url, KNOWN_DOMAINS[k]) && forall j :: 0 <= j < k ==> !Contains(url, KNOWN_DOMAINS[j])
  {
    var d := KNOWN_DOMAINS;
    var none := forall j :: 0 <= j < k ==> !Contains(url, d[j]);
    if k == 1 {
      assert none <==> !Contains(url, d[0]);
    } else if k == 2 {
      assert none <==> !Contains(url, d[0]) && !Contains(url, d[1]);
    } else if k == 3 {
      assert none <==> !Contains(url, d[0]) && !Contains(url, d[1]) && !Contains(url, d[2]);
    } else if k == 4 {
      assert none <==> !Contains(url, d[0]) && !Contains(url, d[1]) && !Contains(url, d[2]) && !Contains(url, d[3]);
    }
  }

  /** The first default authority is shown as FreeTSA. */
  lemma FreeTsaNamed()
    ensures DisplayName(TSA_SERVERS[0]) == "FreeTSA"
  {
    var s := TSA_SERVERS[0];
    assert s[8..19] == "freetsa.org";
    OccurrenceContains(s, "freetsa.org", 8);
  }

  // ---------------------------------------------------------------------
  // The retry and fallback loop

  /** One call of `requestTimestamp`: a token with its readable time, or an exception
      with its (possibly missing) message. */
  datatype Attempt = Obtained(token: seq<Byte>, timestampInfo: string) | Threw(message: Option<string>)

  /** The authority's answer to the `attempt`-th request for a message. */
  type Requester = (string, seq<Byte>, nat) -> Attempt

  /** Whether the back-off sleep after the `attempt`-th failure on a server is interrupted. */
  type Interruption = (string, nat) -> bool

  const ALL_FAILED_MESSAGE: string := "All TSA servers failed. Please check your internet connection."

  function Obtain(url: string, token: seq<Byte>, info: string): TimestampResult {
    TimestampResult(true, Some(token), Some(info), Some(url), None)
  }

  function AllFailed(): TimestampResult {
    TimestampResult(false, None, None, None, Some(ALL_FAILED_MESSAGE))
  }

  /** How the attempts on one server ended: the result, if one was obtained, and how many
      requests were sent. */
  datatype ServerRun = ServerRun(result: Option<TimestampResult>, attempts: nat)

  /** The attempts on `url` from attempt number `attempt` on. */
  function RunFrom(url: string, message: seq<Byte>, request: Requester, interrupted: Interruption, attempt: nat): ServerRun
    requires 1 <= attempt
    decreases MAX_RETRIES + 1 - attempt
  {
    if attempt > MAX_RETRIES then ServerRun(None, attempt - 1)
    else match request(url, message, attempt)
      case Obtained(token, info) => ServerRun(Some(Obtain(url, token, info)), attempt)
      case Threw(m) =>
        if StopsRetrying(CategorizeError(m)) then ServerRun(None, attempt)
        else if attempt < MAX_RETRIES && interrupted(url, attempt) then ServerRun(None, attempt)
        else RunFrom(url, message, request, interrupted, attempt + 1)
  }

  function Run(url: string, message: seq<Byte>, request: Requester, interrupted: Interruption): ServerRun {
    RunFrom(url, message, request, interrupted, 1)
  }

  /** A server is sent at least one and at most `MAX_RETRIES` requests; a first failure
      that stops the retries sends exactly one; a result obtained names that server. */
  lemma RunBounds(url: string, message: seq<Byte>, request: Requester, interrupted: Interruption)
    ensures var run := Run(url, message, request, interrupted);
      && 1 <= run.attempts <= MAX_RETRIES
      && (request(url, message, 1).Threw? && StopsRetrying(CategorizeError(request(url, message, 1).message)) ==>
            run == ServerRun(None, 1))
      && (request(url, message, 1).Obtained? ==>
            run.result == Some(Obtain(url, request(url, message, 1).token, request(url, message, 1).timestampInfo)))
      && (run.result.Some? ==> run.result.value.success && run.result.value.serverUsed == Some(url))
  {
    var run2 := RunFrom(url, message, request, interrupted, 2);
    assert 1 <= run2.attempts <= MAX_RETRIES;
  }

  /** The outcome over the servers from index `i` on. */
  function TokenFrom(servers: seq<string>, message: seq<Byte>, request: Requester, interrupted: Interruption, i: nat)
    : TimestampResult
    requires i <= |servers|
    decreases |servers| - i
  {
    if i == |servers| then AllFailed()
    else match Run(servers[i], message, request, interrupted).result
      case Some(r) => r
      case None => TokenFrom(servers, message, request, interrupted, i + 1)
  }

  /** What `getTimestampToken` returns. */
  function TokenOutcome(primaryTsaUrl: Option<string>, message: seq<Byte>, request: Requester, interrupted: Interruption)
    : TimestampResult
  {
    TokenFrom(ServerList(primaryTsaUrl), message, request, interrupted, 0)
  }

  /** The servers are tried in order: the result is the first server's that obtained one
      and names that server, every earlier server obtained nothing; when none obtained
      one, the result is the fixed failure. */
  lemma {:induction false} TokenFromFirstSuccess(servers: seq<string>, message: seq<Byte>, request: Requester,
                                                 interrupted: Interruption, i: nat)
    requires i <= |servers|
    ensures var r := TokenFrom(servers, message, request, interrupted, i);
      && (r.success ==> exists k :: i <= k < |servers| && r.serverUsed == Some(servers[k]) &&
                         Run(servers[k], message, request, interrupted).result == Some(r) &&
                         forall j :: i <= j < k ==> Run(servers[j], message, request, interrupted).result.None?)
      && (!r.success ==> r == AllFailed() &&
                         forall j :: i <= j < |servers| ==> Run(servers[j], message, request, interrupted).result.None?)
    decreases |servers| - i
  {
    if i < |servers| {
      RunBounds(servers[i], message, request, interrupted);
      if Run(servers[i], message, request, interrupted).result.None? {
        TokenFromFirstSuccess(servers, message, request, interrupted, i + 1);
      }
    }
  }

  // ---------------------------------------------------------------------
  // The client

  class TSAClient {
    constructor () {
    }

    /** Builds the list to try: a usable primary URL first, then the defaults, without
        duplicates. */
    static method BuildServerList(primaryTsaUrl: Option<string>) returns (servers: seq<string>)
      ensures servers == ServerList(primaryTsaUrl)
    {
      servers := [];
      if primaryTsaUrl.Some? {
        var url := primaryTsaUrl.value;
        if IsNotBlank(url) && url !in TSA_SERVERS {
          servers := servers + [url];
        }
      }
      servers := servers + TSA_SERVERS;
      assert servers == CandidateServers(primaryTsaUrl);
      return Distinct(servers);
    }

    /** Tries each server in order, up to `MAX_RETRIES` times, and returns the first token
        obtained. */
    static method GetTimestampToken(message: seq<Byte>, primaryTsaUrl: Option<string>, request: Requester,
                                    interrupted: Interruption)
      returns (result: TimestampResult)
      ensures result == TokenOutcome(primaryTsaUrl, message, request, interrupted)
    {
      var serversToTry := BuildServerList(primaryTsaUrl);
      var index := 0;
      while index < |serversToTry|
        invariant 0 <= index <= |serversToTry|
        invariant TokenOutcome(primaryTsaUrl, message, request, interrupted)
                  == TokenFrom(serversToTry, message, request, interrupted, index)
      {
        var serverUrl := serversToTry[index];
        var attempt := 1;
        while attempt <= MAX_RETRIES
          invariant 1 <= attempt <= MAX_RETRIES + 1
          invariant Run(serverUrl, message, request, interrupted).result
                    == RunFrom(serverUrl, message, request, interrupted, attempt).result
        {
          var outcome := request(serverUrl, message, attempt);
          if outcome.Obtained? {
            return Obtain(serverUrl, outcome.token, outcome.timestampInfo);
          }
          var errorType := CategorizeError(outcome.message);
          if StopsRetrying(errorType) {
            break;
          }
          if attempt < MAX_RETRIES && interrupted(serverUrl, attempt) {
            break;
          }
          attempt := attempt + 1;
        }
        index := index + 1;
      }
      result := AllFailed();
    }

    /** `getTsaServerDisplayName`. */
    static method GetTsaServerDisplayName(url: string) returns (name: string)
      ensures name == DisplayName(url)
    {
      name := DisplayName(url);
    }
  }
}
