/**
  The Windows timestamp-authority client: an ordered list of authorities, an
  ad hoc request encoding, one HTTP POST per authority and a fallback loop
  that stops at the first authority answering 200 with a non-empty body.

  WinINet is an oracle: `Transport` says, for the endpoint the client derived
  from a URL and the bytes it posts, how far the exchange got; `Probe` says
  what opening a URL for the liveness test returned.
 */
module TsaClient {
  import opened Wrappers
  import opened Text

  datatype TSAServer = TSAServer(url: string, name: string, requiresAuth: bool, username: string, password: string)

  datatype TSAResponse = TSAResponse(
    success: bool,
    timestampData: seq<Byte>,
    errorMessage: string,
    serverUsed: string,
    httpStatusCode: int)

  /** A value-initialised response (`TSAResponse response = {}`) carrying only an error. */
  function Failed(message: string): TSAResponse {
    TSAResponse(false, [], message, "", 0)
  }

  // ---------------------------------------------------------------------
  // The built-in authority list

  function Server(url: string, name: string): TSAServer {
    TSAServer(url, name, false, "", "")
  }

  function DefaultServers(): (s: seq<TSAServer>)
    ensures |s| == 5
  {
    [ Server("https://freetsa.org/tsr", "FreeTSA"),
      Server("http://timestamp.digicert.com", "DigiCert"),
      Server("http://timestamp.sectigo.com", "Sectigo"),
      Server("http://timestamp.globalsign.com/scripts/timstamp.dll", "GlobalSign"),
      Server("http://timestamp.entrust.net/TSS/RFC3161sha2TS", "Entrust") ]
  }

  function Names(servers: seq<TSAServer>): (names: seq<string>)
    ensures |names| == |servers|
    ensures forall i :: 0 <= i < |servers| ==> names[i] == servers[i].name
  {
    if servers == [] then [] else [servers[0].name] + Names(servers[1..])
  }

  lemma DefaultServersOrder()
    ensures Names(DefaultServers()) == ["FreeTSA", "DigiCert", "Sectigo", "GlobalSign", "Entrust"]
    ensures forall i :: 0 <= i < |DefaultServers()| ==> !DefaultServers()[i].requiresAuth
  {
  }

  // ---------------------------------------------------------------------
  // URL splitting (the first half of HttpPostRequest)

  const HTTPS_PORT: nat := 443
  const HTTP_PORT: nat := 80

  /** The `what()` text of the `std::out_of_range` that `substr(npos)` throws: library-defined. */
  const OUT_OF_RANGE_MESSAGE: string := "invalid string position"

  datatype Endpoint = Endpoint(host: string, path: string, port: nat, secure: bool)

  /** Host is the text after the scheme up to the first '/', path is the rest from that '/'. */
  function SplitAfterScheme(url: string, hostStart: nat, port: nat): (r: Result<Endpoint, string>)
    requires hostStart <= |url|
    ensures r.Success? ==> url == url[..hostStart] + r.value.host + r.value.path
    ensures r.Success? ==> '/' !in r.value.host && |r.value.path| >= 1 && r.value.path[0] == '/'
    ensures r.Success? ==> r.value.port == port && r.value.secure == (port == HTTPS_PORT)
    ensures r.Failure? <==> '/' !in url[hostStart..]
    ensures r.Failure? ==> r.error == OUT_OF_RANGE_MESSAGE
  {
    match FindFrom(url, "/", hostStart)
    case None =>
      assert forall j :: hostStart <= j < |url| ==> url[j] != '/' by {
        forall j | hostStart <= j < |url| ensures url[j] != '/' {
          assert !OccursAt(url, "/", j);
          assert url[j..j + 1] == [url[j]];
        }
      }
      Failure(OUT_OF_RANGE_MESSAGE)
    case Some(p) =>
      assert url[p..p + 1] == "/";
      assert url[hostStart..][p - hostStart] == '/';
      var host := url[hostStart..p];
      assert '/' !in host by {
        forall j | hostStart <= j < p ensures url[j] != '/' {
          assert !OccursAt(url, "/", j);
          assert url[j..j + 1] == [url[j]];
        }
      }
      assert url == url[..hostStart] + host + url[p..];
      Success(Endpoint(host, url[p..], port, port == HTTPS_PORT))
  }

  /** Only `https://` (port 443, secure) and `http://` (port 80) URLs are accepted. */
  function SplitUrl(url: string): (r: Result<Endpoint, string>)
    ensures StartsWith(url, "https://") && r.Success? ==>
              url == "https://" + r.value.host + r.value.path && r.value.port == 443 && r.value.secure
    ensures !StartsWith(url, "https://") && StartsWith(url, "http://") && r.Success? ==>
              url == "http://" + r.value.host + r.value.path && r.value.port == 80 && !r.value.secure
    ensures r.Success? ==> '/' !in r.value.host && r.value.path != [] && r.value.path[0] == '/'
    ensures !StartsWith(url, "https://") && !StartsWith(url, "http://") ==> r == Failure("Unsupported URL scheme")
  {
    if StartsWith(url, "https://") then SplitAfterScheme(url, 8, HTTPS_PORT)
    else if StartsWith(url, "http://") then SplitAfterScheme(url, 7, HTTP_PORT)
    else Failure("Unsupported URL scheme")
  }

  // ---------------------------------------------------------------------
  // The WinINet exchange, as an oracle

  /** The WinINet call that failed before any status was read. */
  datatype Stage = Connect | OpenRequest | AddHeaders | Send

  function StageMessage(stage: Stage): string {
    match stage
    case Connect => "Failed to connect to server: "
    case OpenRequest => "Failed to create HTTP request: "
    case AddHeaders => "Failed to add headers: "
    case Send => "Failed to send request: "
  }

  /** One round of the read loop: the bytes `InternetReadFile` delivered, or its failure. */
  datatype Chunk = Received(bytes: seq<Byte>) | ReadFailed

  /** What the server side did with one POST: the `GetLastWinInetError` text of a failed
      stage, or the status code and the chunks read until no more data was available. */
  datatype Exchange = StageFailed(stage: Stage, lastError: string) | Delivered(status: int, chunks: seq<Chunk>)

  type Transport = (Endpoint, seq<Byte>) -> Exchange

  /** The response body: the chunks up to the first failed read. */
  function BodyOf(chunks: seq<Chunk>): seq<Byte> {
    if chunks == [] then []
    else match chunks[0]
      case ReadFailed => []
      case Received(b) => b + BodyOf(chunks[1..])
  }

  /** What `HttpPostRequest` hands back to its caller: the status and the body, or the text
      of the exception it threw. */
  datatype PostOutcome = Posted(status: int, body: seq<Byte>) | Thrown(message: string)

  function HttpExchange(url: string, postData: seq<Byte>, transport: Transport): PostOutcome {
    match SplitUrl(url)
    case Failure(m) => Thrown(m)
    case Success(ep) =>
      match transport(ep, postData)
      case StageFailed(stage, err) => Thrown(StageMessage(stage) + err)
      case Delivered(status, chunks) => Posted(status, BodyOf(chunks))
  }

  /** The authority answered 200 with a non-empty body. */
  predicate Answers(server: TSAServer, request: seq<Byte>, transport: Transport) {
    var e := HttpExchange(server.url, request, transport);
    e.Posted? && e.status == 200 && e.body != []
  }

  /** The outcome of asking one authority (`RequestTimestampFromServer`). */
  function AttemptOutcome(server: TSAServer, request: seq<Byte>, transport: Transport): (r: TSAResponse)
    ensures r.success <==> Answers(server, request, transport)
    ensures r.success ==> r.timestampData == HttpExchange(server.url, request, transport).body
                          && r.serverUsed == server.name && r.errorMessage == ""
    ensures !r.success ==> r.timestampData == [] && r.serverUsed == ""
    ensures HttpExchange(server.url, request, transport).Thrown? ==>
              r.errorMessage == HttpExchange(server.url, request, transport).message && r.httpStatusCode == 0
    ensures !r.success && HttpExchange(server.url, request, transport).Posted? ==>
              r.errorMessage == "HTTP " + IntToDecimal(r.httpStatusCode)
              && r.httpStatusCode == HttpExchange(server.url, request, transport).status
  {
    match HttpExchange(server.url, request, transport)
    case Thrown(m) => Failed(m)
    case Posted(status, body) =>
      if status == 200 && body != [] then TSAResponse(true, body, "", server.name, status)
      else TSAResponse(false, [], "HTTP " + IntToDecimal(status), "", status)
  }

  /** The index of the first authority whose attempt succeeds. */
  function FirstSuccess(servers: seq<TSAServer>, request: seq<Byte>, transport: Transport): (r: Option<nat>)
    ensures r.Some? ==> r.value < |servers| && Answers(servers[r.value], request, transport)
    ensures r.Some? ==> forall j :: 0 <= j < r.value ==> !Answers(servers[j], request, transport)
    ensures r.None? ==> forall j :: 0 <= j < |servers| ==> !Answers(servers[j], request, transport)
  {
    FirstWhere(servers, s => Answers(s, request, transport), 0)
  }

  /** The first server from index `from` on that satisfies `ok`. */
  function FirstWhere(servers: seq<TSAServer>, ok: TSAServer -> bool, from: nat): (r: Option<nat>)
    requires from <= |servers|
    ensures r.Some? ==> from <= r.value < |servers| && ok(servers[r.value])
    ensures r.Some? ==> forall j :: from <= j < r.value ==> !ok(servers[j])
    ensures r.None? ==> forall j :: from <= j < |servers| ==> !ok(servers[j])
    decreases |servers| - from
  {
    if from == |servers| then None
    else if ok(servers[from]) then Some(from)
    else FirstWhere(servers, ok, from + 1)
  }

  /** What `GetTimestamp` answers for a WinINet state, a list and a request. */
  function TimestampOutcome(internetOpen: bool, servers: seq<TSAServer>, request: seq<Byte>, transport: Transport): TSAResponse {
    if !internetOpen then Failed("WinINet not initialized")
    else match FirstSuccess(servers, request, transport)
      case None => Failed("All TSA servers failed")
      case Some(i) => AttemptOutcome(servers[i], request, transport).(serverUsed := servers[i].name)
  }

  /** A successful timestamp came from the first authority that answered 200 with a body,
      and names that authority; every earlier one failed. */
  lemma TimestampSuccessIsFirstSuccess(internetOpen: bool, servers: seq<TSAServer>, request: seq<Byte>, transport: Transport)
    requires TimestampOutcome(internetOpen, servers, request, transport).success
    ensures internetOpen
    ensures exists i :: 0 <= i < |servers| && IsFirstSuccess(servers, request, transport, i)
                        && TimestampOutcome(internetOpen, servers, request, transport).serverUsed == servers[i].name
                        && TimestampOutcome(internetOpen, servers, request, transport).timestampData
                           == HttpExchange(servers[i].url, request, transport).body
  {
    var i := FirstSuccess(servers, request, transport).value;
    assert IsFirstSuccess(servers, request, transport, i);
  }

  ghost predicate IsFirstSuccess(servers: seq<TSAServer>, request: seq<Byte>, transport: Transport, i: int) {
    && 0 <= i < |servers|
    && Answers(servers[i], request, transport)
    && forall j :: 0 <= j < i ==> !Answers(servers[j], request, transport)
  }

  /** When every authority fails (in particular when the list is empty) the answer is the
      aggregate failure; it carries no token and no authority name. */
  lemma AllServersFailed(servers: seq<TSAServer>, request: seq<Byte>, transport: Transport)
    requires forall j :: 0 <= j < |servers| ==> !Answers(servers[j], request, transport)
    ensures TimestampOutcome(true, servers, request, transport) == Failed("All TSA servers failed")
  {
  }

  /** The fallback scenario: the first authority fails, the second answers. */
  lemma SecondServerAnswers(servers: seq<TSAServer>, request: seq<Byte>, transport: Transport)
    requires |servers| >= 2
    requires !Answers(servers[0], request, transport)
    requires Answers(servers[1], request, transport)
    ensures TimestampOutcome(true, servers, request, transport).success
    ensures TimestampOutcome(true, servers, request, transport).serverUsed == servers[1].name
  {
    var r := FirstSuccess(servers, request, transport);
    assert r.Some? && r.value == 1;
  }

  /** An attempt succeeds exactly on status 200 with a non-empty body; otherwise its error
      reads "HTTP <status>". */
  lemma AttemptRule(server: TSAServer, request: seq<Byte>, transport: Transport, status: int, body: seq<Byte>)
    requires HttpExchange(server.url, request, transport) == Posted(status, body)
    ensures AttemptOutcome(server, request, transport).success <==> status == 200 && body != []
    ensures !(status == 200 && body != []) ==>
              AttemptOutcome(server, request, transport).errorMessage == "HTTP " + IntToDecimal(status)
  {
  }

  /** A URL with an unsupported scheme fails its attempt without reaching the transport. */
  lemma UnsupportedSchemeFailsAttempt(server: TSAServer, request: seq<Byte>, transport: Transport)
    requires !StartsWith(server.url, "https://") && !StartsWith(server.url, "http://")
    ensures AttemptOutcome(server, request, transport) == Failed("Unsupported URL scheme")
  {
  }

  // ---------------------------------------------------------------------
  // The request encoding

  /** The hash-algorithm object identifier the request carries, whatever algorithm is named. */
  const ALGORITHM_OID: seq<Byte> := [0x2B, 0x0E, 0x03, 0x02, 0x1A]

  /** The bytes `CreateTSARequest` produces: the two-byte length overwrites the version's
      INTEGER tag at index 2 and its low byte is inserted at index 3. */
  function TSARequestBytes(hash: seq<Byte>, nonce: seq<Byte>): seq<Byte> {
    var total := |hash| + 25;
    [0x30, 0x82, (total / 256) % 256, total % 256, 0x01, 0x01,
     0x30, (|hash| + 10) % 256,
     0x30, 0x07, 0x06, 0x05] + ALGORITHM_OID +
    [0x04, |hash| % 256] + hash +
    [0x02, 0x08] + nonce
  }

  /** The layout of the request, byte by byte. */
  /** The request as first assembled, with the placeholder `0x02` where the length goes. */
  function UnpatchedRequest(hash: seq<Byte>): seq<Byte> {
    [0x30, 0x82, 0x02, 0x01, 0x01, 0x30, (|hash| + 10) % 256, 0x30, 0x07, 0x06, 0x05]
    + ALGORITHM_OID + [0x04, |hash| % 256] + hash + [0x02, 0x08]
  }

  /** Overwriting the placeholder with the high length byte and inserting the low one after
      it gives the encoded request. */
  lemma LengthPatch(hash: seq<Byte>, nonce: seq<Byte>)
    requires |nonce| == 8
    ensures var draft := UnpatchedRequest(hash) + nonce;
      var total := |draft| - 3;
      var patched := draft[2 := (total / 256) % 256];
      patched[..3] + [total % 256] + patched[3..] == TSARequestBytes(hash, nonce)
  {
    DraftShape(hash, nonce);
    RequestShape(hash, nonce);
    var total := |hash| + 25;
    PatchAt2(RequestTail(hash, nonce), (total / 256) % 256, total % 256);
  }

  /** Everything after the two length bytes. */
  function RequestTail(hash: seq<Byte>, nonce: seq<Byte>): seq<Byte> {
    [0x01, 0x01, 0x30, (|hash| + 10) % 256, 0x30, 0x07, 0x06, 0x05]
    + ALGORITHM_OID + [0x04, |hash| % 256] + hash + [0x02, 0x08] + nonce
  }

  lemma DraftShape(hash: seq<Byte>, nonce: seq<Byte>)
    requires |nonce| == 8
    ensures UnpatchedRequest(hash) + nonce == [0x30, 0x82, 0x02] + RequestTail(hash, nonce)
    ensures |UnpatchedRequest(hash) + nonce| == |hash| + 28
  {
  }

  lemma RequestShape(hash: seq<Byte>, nonce: seq<Byte>)
    ensures var total := |hash| + 25;
      TSARequestBytes(hash, nonce) == [0x30, 0x82, (total / 256) % 256, total % 256] + RequestTail(hash, nonce)
  {
  }

  lemma PatchAt2(rest: seq<Byte>, hi: Byte, lo: Byte)
    ensures var draft := [0x30, 0x82, 0x02] + rest;
      var patched := draft[2 := hi];
      patched[..3] + [lo] + patched[3..] == [0x30, 0x82, hi, lo] + rest
  {
    var draft: seq<Byte> := [0x30, 0x82, 0x02] + rest;
    var patched := draft[2 := hi];
    assert patched[..3] == [0x30, 0x82, hi];
    assert patched[3..] == rest;
  }

  lemma TSARequestLayout(hash: seq<Byte>, nonce: seq<Byte>)
    requires |nonce| == 8
    ensures var r := TSARequestBytes(hash, nonce);
      && |r| == |hash| + 29
      && r[0] == 0x30 && r[1] == 0x82
      && r[2] == ((|hash| + 25) / 256) % 256 && r[3] == (|hash| + 25) % 256
      && r[4] == 0x01 && r[5] == 0x01
      && r[12..17] == ALGORITHM_OID
      && r[17] == 0x04 && r[18] == |hash| % 256
      && r[19..19 + |hash|] == hash
      && r[|r| - 8..] == nonce
  {
  }

  /** The length that bytes 2-3 declare. */
  function DeclaredLength(r: seq<Byte>): int
    requires |r| >= 4
  {
    256 * (r[2] as int) + (r[3] as int)
  }

  /** An independent reader of the request: checks the fixed bytes and reads the hash back
      through its one-byte length. */
  function ParseTSARequest(r: seq<Byte>): Option<(seq<Byte>, seq<Byte>)> {
    if |r| < 29 || r[0] != 0x30 || r[1] != 0x82 || r[17] != 0x04 then None
    else
      var n: int := r[18];
      if |r| != n + 29 || r[12..17] != ALGORITHM_OID then None
      else Some((r[19..19 + n], r[19 + n + 2..]))
  }

  /** For any digest shorter than 256 bytes the request reads back to the digest and the
      nonce, and its declared length counts exactly the bytes after the 4-byte header. */
  lemma {:induction false} TSARequestRoundTrip(hash: seq<Byte>, nonce: seq<Byte>)
    requires |nonce| == 8 && |hash| < 256
    ensures ParseTSARequest(TSARequestBytes(hash, nonce)) == Some((hash, nonce))
    ensures DeclaredLength(TSARequestBytes(hash, nonce)) == |TSARequestBytes(hash, nonce)| - 4
  {
    TSARequestLayout(hash, nonce);
    var r := TSARequestBytes(hash, nonce);
    assert r[19 + |hash| + 2..] == nonce;
    assert (|hash| + 25) / 256 * 256 + (|hash| + 25) % 256 == |hash| + 25;
  }

  // ---------------------------------------------------------------------
  // The client object

  /** The liveness probe's view of `InternetOpenUrl` and `HttpQueryInfo`. */
  datatype ProbeResult = OpenFailed | Opened(statusRead: bool, status: int)

  /** Statuses the probe treats as "alive": 405 is what a timestamp endpoint answers to GET. */
  predicate AliveStatus(status: int) {
    status == 200 || status == 405
  }

  class TSAClient {
    var tsaServers: seq<TSAServer>
    /** `m_hInternet != nullptr`: whether `InternetOpen` succeeded at construction. */
    var internetOpen: bool

    /** `internetOpened` is the outcome of `InternetOpen`. */
    constructor (internetOpened: bool)
      ensures internetOpen == internetOpened
      ensures tsaServers == DefaultServers()
    {
      internetOpen := internetOpened;
      tsaServers := DefaultServers();
    }

    method InitializeDefaultTSAServers()
      modifies this`tsaServers
      ensures tsaServers == DefaultServers()
    {
      var servers: seq<TSAServer> := [];
      servers := servers + [Server("https://freetsa.org/tsr", "FreeTSA")];
      servers := servers + [Server("http://timestamp.digicert.com", "DigiCert")];
      servers := servers + [Server("http://timestamp.sectigo.com", "Sectigo")];
      servers := servers + [Server("http://timestamp.globalsign.com/scripts/timstamp.dll", "GlobalSign")];
      servers := servers + [Server("http://timestamp.entrust.net/TSS/RFC3161sha2TS", "Entrust")];
      tsaServers := servers;
    }

    method SetTSAServers(servers: seq<TSAServer>)
      modifies this`tsaServers
      ensures tsaServers == servers
    {
      tsaServers := servers;
    }

    method GetAvailableTSAServers() returns (servers: seq<TSAServer>)
      ensures servers == tsaServers
    {
      servers := tsaServers;
    }

    /** The liveness probe: alive only when WinINet is up, the URL opens, the status can be
        read and it is 200 or 405. */
    method TestTSAServer(server: TSAServer, probe: string -> ProbeResult) returns (alive: bool)
      ensures alive <==> internetOpen && probe(server.url).Opened?
                         && probe(server.url).statusRead && AliveStatus(probe(server.url).status)
    {
      if !internetOpen {
        return false;
      }
      var result := probe(server.url);
      if result.OpenFailed? {
        return false;
      }
      var success := result.statusRead;
      alive := success && (result.status == 200 || result.status == 405);
    }

    /** Builds the request with appends, then patches index 2 and inserts at index 3.
        `hashAlgorithm` is accepted and ignored; `nonce` stands for the eight random bytes. */
    static method CreateTSARequest(messageHash: seq<Byte>, hashAlgorithm: string, nonce: seq<Byte>) returns (request: seq<Byte>)
      requires |nonce| == 8
      ensures request == TSARequestBytes(messageHash, nonce)
      ensures |request| == |messageHash| + 29
    {
      request := [];
      request := request + [0x30, 0x82];
      request := request + [0x02, 0x01, 0x01];
      request := request + [0x30, (|messageHash| + 10) % 256];
      request := request + [0x30, 0x07, 0x06, 0x05];
      request := request + ALGORITHM_OID;
      request := request + [0x04, |messageHash| % 256];
      request := request + messageHash;
      request := request + [0x02, 0x08];
      request := AppendNonce(request, nonce);
      assert request == UnpatchedRequest(messageHash) + nonce;
      var totalLength := |request| - 3;
      request := request[2 := (totalLength / 256) % 256];
      request := request[..3] + [totalLength % 256] + request[3..];
      LengthPatch(messageHash, nonce);
    }

    /** Appends the nonce byte by byte. */
    static method AppendNonce(prefix: seq<Byte>, nonce: seq<Byte>) returns (request: seq<Byte>)
      ensures request == prefix + nonce
    {
      request := prefix;
      var i := 0;
      while i < |nonce|
        invariant 0 <= i <= |nonce|
        invariant request == prefix + nonce[..i]
      {
        assert nonce[..i + 1] == nonce[..i] + [nonce[i]];
        request := request + [nonce[i]];
        i := i + 1;
      }
      assert nonce[..i] == nonce;
    }

    /** Reads the response: appends each chunk until no data is left or a read fails. */
    static method ReadResponse(chunks: seq<Chunk>) returns (responseData: seq<Byte>)
      ensures responseData == BodyOf(chunks)
    {
      responseData := [];
      var i := 0;
      while i < |chunks|
        invariant 0 <= i <= |chunks|
        invariant BodyOf(chunks) == responseData + BodyOf(chunks[i..])
      {
        assert chunks[i..][1..] == chunks[i + 1..];
        match chunks[i]
        case ReadFailed =>
          break;
        case Received(bytes) =>
          responseData := responseData + bytes;
        i := i + 1;
      }
      if i == |chunks| {
        assert chunks[i..] == [];
      }
    }

    /** Splits the URL, performs the exchange and reads the body; a failure anywhere before
        the status is read becomes the text of the exception it throws. */
    static method HttpPostRequest(url: string, postData: seq<Byte>, transport: Transport) returns (outcome: PostOutcome)
      ensures outcome == HttpExchange(url, postData, transport)
      ensures outcome.Thrown? && SplitUrl(url).Failure? ==> outcome.message == SplitUrl(url).error
    {
      var split := SplitUrl(url);
      if split.Failure? {
        return Thrown(split.error);
      }
      var endpoint := split.value;
      var exchange := transport(endpoint, postData);
      match exchange
      case StageFailed(stage, err) =>
        outcome := Thrown(StageMessage(stage) + err);
      case Delivered(status, chunks) =>
        var responseData := ReadResponse(chunks);
        outcome := Posted(status, responseData);
    }

    static method RequestTimestampFromServer(server: TSAServer, tsaRequest: seq<Byte>, transport: Transport)
      returns (response: TSAResponse)
      ensures response == AttemptOutcome(server, tsaRequest, transport)
    {
      response := TSAResponse(false, [], "", "", 0);
      var posted := HttpPostRequest(server.url, tsaRequest, transport);
      match posted
      case Thrown(message) =>
        response := response.(success := false, errorMessage := message);
      case Posted(status, responseData) =>
        response := response.(httpStatusCode := status);
        if response.httpStatusCode == 200 && responseData != [] {
          response := response.(success := true, timestampData := responseData, serverUsed := server.name);
        } else {
          response := response.(success := false, errorMessage := "HTTP " + IntToDecimal(response.httpStatusCode));
        }
    }

    /** Refuses without WinINet; otherwise builds the request once and asks the authorities
        in list order. */
    method GetTimestamp(messageHash: seq<Byte>, hashAlgorithm: string, nonce: seq<Byte>, transport: Transport)
      returns (response: TSAResponse)
      requires |nonce| == 8
      ensures response == TimestampOutcome(internetOpen, tsaServers, TSARequestBytes(messageHash, nonce), transport)
    {
      if !internetOpen {
        response := Failed("WinINet not initialized");
        return;
      }
      var tsaRequest := CreateTSARequest(messageHash, hashAlgorithm, nonce);
      response := AskInOrder(tsaRequest, transport);
    }

    /** The fallback loop of `GetTimestamp`: stops at the first authority that answers. */
    method AskInOrder(tsaRequest: seq<Byte>, transport: Transport) returns (response: TSAResponse)
      ensures response == TimestampOutcome(true, tsaServers, tsaRequest, transport)
    {
      var servers := tsaServers;
      response := AskEach(servers, tsaRequest, transport);
    }

    /** Asks each authority in list order, stopping at the first that answers. */
    static method AskEach(servers: seq<TSAServer>, tsaRequest: seq<Byte>, transport: Transport) returns (response: TSAResponse)
      ensures response == TimestampOutcome(true, servers, tsaRequest, transport)
    {
      var i := 0;
      while i < |servers|
        invariant 0 <= i <= |servers|
        invariant forall j :: 0 <= j < i ==> !Answers(servers[j], tsaRequest, transport)
      {
        var server := servers[i];
        response := RequestTimestampFromServer(server, tsaRequest, transport);
        if response.success {
          response := response.(serverUsed := server.name);
          StopAt(servers, tsaRequest, transport, i);
          return;
        }
        i := i + 1;
      }
      AllServersFailed(servers, tsaRequest, transport);
      response := Failed("All TSA servers failed");
    }
  }


  /** Stopping at the first authority that answers yields the timestamp outcome. */
  lemma StopAt(servers: seq<TSAServer>, request: seq<Byte>, transport: Transport, i: nat)
    requires i < |servers| && Answers(servers[i], request, transport)
    requires forall j :: 0 <= j < i ==> !Answers(servers[j], request, transport)
    ensures AttemptOutcome(servers[i], request, transport).(serverUsed := servers[i].name)
            == TimestampOutcome(true, servers, request, transport)
  {
    FirstSuccessIs(servers, request, transport, i);
  }

  lemma FirstSuccessIs(servers: seq<TSAServer>, request: seq<Byte>, transport: Transport, i: nat)
    requires i < |servers| && Answers(servers[i], request, transport)
    requires forall j :: 0 <= j < i ==> !Answers(servers[j], request, transport)
    ensures FirstSuccess(servers, request, transport) == Some(i)
  {
  }
}
