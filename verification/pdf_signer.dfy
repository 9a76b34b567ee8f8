/**
  The Windows document signer: a staged pipeline (read, header check, sign,
  optional timestamp, embed, write) whose every failure becomes a
  `SigningResult` with a fixed message, plus three byte routines: the header
  check, the page-object scan and the splice that inserts a signature
  dictionary before the last end-of-file marker.

  Files, hashing, CryptoAPI signing, the clock and the request nonce are the
  fields of an `Environment` value.
 */
module PdfSigner {
  import opened Wrappers
  import opened Text
  import opened TsaClient
  import CertificateManager

  datatype SignaturePosition = SignaturePosition(x: real, y: real, pageNumber: int, width: real, height: real)

  datatype SigningResult = SigningResult(
    success: bool,
    errorMessage: string,
    signedPdfPath: string,
    timestampServer: string,
    signingTime: string,
    originalSize: nat,
    signedSize: nat)

  /** The stage at which a signing run stopped. */
  datatype Stage = ReadStage | HeaderStage | SignStage | EmbedStage | WriteStage

  function FailureMessage(stage: Stage): string {
    match stage
    case ReadStage => "Failed to read PDF file"
    case HeaderStage => "Invalid PDF file"
    case SignStage => "Failed to create digital signature"
    case EmbedStage => "Failed to add signature to PDF"
    case WriteStage => "Failed to write signed PDF file"
  }

  /** A value-initialised result that failed at `stage`, keeping the sizes and server name
      recorded before it. */
  function Refused(stage: Stage, originalSize: nat, timestampServer: string): SigningResult {
    SigningResult(false, FailureMessage(stage), "", timestampServer, "", originalSize, 0)
  }

  /** The outside world the signer talks to. `read` is what reading a file yields (empty
      when it cannot be opened or read); `hash` is the SHA-256 routine (empty on failure);
      `sign` is the CryptoAPI hash-signing chain for a provider handle (empty on failure);
      `objectTime` and `signingTime` are the two clock readings, the first taken while
      building the signature object. */
  datatype Environment = Environment(
    read: string -> seq<Byte>,
    write: (string, seq<Byte>) -> bool,
    hash: seq<Byte> -> seq<Byte>,
    sign: (nat, seq<Byte>) -> seq<Byte>,
    nonce: seq<Byte>,
    transport: Transport,
    objectTime: string,
    signingTime: string)

  // ---------------------------------------------------------------------
  // The header check

  /** `%PDF-` */
  const PDF_HEADER: seq<Byte> := [0x25, 0x50, 0x44, 0x46, 0x2D]

  /** The check on the bytes: at least eight of them, and `%PDF-` found at offset 0 of
      the first eight. */
  function ValidatePdfData(pdfData: seq<Byte>): (valid: bool)
    ensures valid <==> |pdfData| >= 8 && pdfData[..5] == PDF_HEADER
  {
    if |pdfData| < 8 then false
    else
      var header := pdfData[..8];
      assert OccursAt(header, PDF_HEADER, 0) <==> pdfData[..5] == PDF_HEADER by {
        assert header[..5] == pdfData[..5];
      }
      FindFrom(header, PDF_HEADER, 0) == Some(0)
  }

  /** A seven-byte `%PDF-1.` is too short to pass, whatever follows the marker. */
  lemma SevenByteHeaderRejected()
    ensures !ValidatePdfData(Latin1("%PDF-1."))
  {
  }

  // ---------------------------------------------------------------------
  // Page counting

  /** `/Type /Page` */
  const PAGE_KEY: seq<Byte> := [0x2F, 0x54, 0x79, 0x70, 0x65, 0x20, 0x2F, 0x50, 0x61, 0x67, 0x65]
  /** `s` */
  const LOWER_S: Byte := 0x73

  /** A counted page object: the key occurs at `i`, a byte follows it and that byte is not
      the `s` of `/Type /Pages`. */
  predicate PageAt(text: seq<Byte>, i: int) {
    OccursAt(text, PAGE_KEY, i) && i + 11 < |text| && text[i + 11] != LOWER_S
  }

  /** What the scan counts from `pos`: find the key, count it when it qualifies, resume
      eleven bytes further on. */
  function PageHits(text: seq<Byte>, pos: nat): nat
    requires pos <= |text|
    decreases |text| - pos
  {
    match FindFrom(text, PAGE_KEY, pos)
    case None => 0
    case Some(p) => (if p + 11 < |text| && text[p + 11] != LOWER_S then 1 else 0) + PageHits(text, p + 11)
  }

  /** The reference count: every position from `from` on where a page object sits. */
  function CountPages(text: seq<Byte>, from: nat): nat
    requires from <= |text|
    decreases |text| - from
  {
    if from == |text| then 0 else (if PageAt(text, from) then 1 else 0) + CountPages(text, from + 1)
  }

  /** The key cannot overlap itself: its only other `/` is at offset 6, followed by `P`
      where the key has `T`. */
  lemma NoSelfOverlap(text: seq<Byte>, p: int, q: int)
    requires OccursAt(text, PAGE_KEY, p) && p < q < p + 11
    ensures !OccursAt(text, PAGE_KEY, q)
  {
    var d := q - p;
    if d == 6 {
      assert text[q + 1] == PAGE_KEY[7] != PAGE_KEY[1];
    } else {
      assert text[q] == PAGE_KEY[d] != PAGE_KEY[0];
    }
  }

  lemma {:induction false} CountSkip(text: seq<Byte>, a: nat, b: nat)
    requires a <= b <= |text|
    requires forall j :: a <= j < b ==> !OccursAt(text, PAGE_KEY, j)
    ensures CountPages(text, a) == CountPages(text, b)
    decreases b - a
  {
    if a < b {
      CountSkip(text, a + 1, b);
    }
  }

  /** The scan counts every page object exactly once. */
  lemma {:induction false} PageHitsCountsPages(text: seq<Byte>, pos: nat)
    requires pos <= |text|
    ensures PageHits(text, pos) == CountPages(text, pos)
    decreases |text| - pos
  {
    match FindFrom(text, PAGE_KEY, pos)
    case None =>
      CountSkip(text, pos, |text|);
    case Some(p) =>
      PageHitsCountsPages(text, p + 11);
      CountSkip(text, pos, p);
      forall j | p + 1 <= j < p + 11 ensures !OccursAt(text, PAGE_KEY, j) {
        NoSelfOverlap(text, p, j);
      }
      CountSkip(text, p + 1, p + 11);
  }

  /** `/Type /Pages` is never counted, and one page object is counted once. */
  lemma PagesTreeNotCounted()
    ensures CountPages(PAGE_KEY + [LOWER_S, 0x20], 0) == 0
    ensures CountPages(PAGE_KEY + [0x20], 0) == 1
  {
    var t1 := PAGE_KEY + [LOWER_S, 0x20];
    assert t1[..11] == PAGE_KEY;
    forall j | 1 <= j <= |t1| ensures !OccursAt(t1, PAGE_KEY, j) {
      if j < 11 {
        NoSelfOverlap(t1, 0, j);
      }
    }
    CountSkip(t1, 1, |t1|);
    var t2 := PAGE_KEY + [0x20];
    assert t2[..11] == PAGE_KEY;
    forall j | 1 <= j <= |t2| ensures !OccursAt(t2, PAGE_KEY, j) {
      if j < 11 {
        NoSelfOverlap(t2, 0, j);
      }
    }
    CountSkip(t2, 1, |t2|);
  }

  // ---------------------------------------------------------------------
  // The signature object and the splice

  /** `%%EOF` */
  const EOF_MARKER: seq<Byte> := [0x25, 0x25, 0x45, 0x4F, 0x46]

  /** The object text up to the first byte-range number. */
  const OBJECT_PREAMBLE: string :=
    "\n\n% Digital Signature Object\n1000 0 obj\n<<\n/Type /Sig\n/Filter /Adobe.PPKLite\n/SubFilter /adbe.pkcs7.detached\n/ByteRange [0 "

  const BYTE_RANGE_CLOSE: string := " 1000]\n/Contents <"

  /** Everything before the signature hex: the object header and the byte range
      `[0 start resume 1000]`, with `/Contents <` opened. */
  function ByteRangeHead(start: string, resume: string): string {
    OBJECT_PREAMBLE + (start + (" " + (resume + BYTE_RANGE_CLOSE)))
  }

  /** The head for an end-of-file marker at `eofPos`: the range resumes 1000 bytes later. */
  function ObjectHead(eofPos: nat): string {
    ByteRangeHead(NatToDecimal(eofPos), NatToDecimal(eofPos + 1000))
  }

  const TIMESTAMP_OPEN: string := ">\n/TimeStamp <"

  /** The timestamp entry around the token's hex: present only for a non-empty token. */
  function TimestampEntry(stampHex: string): string {
    if stampHex == "" then "" else TIMESTAMP_OPEN + stampHex
  }

  function ObjectTail(now: string): string {
    ">\n/M (D:" + now + ")\n/Location (Windows)\n/Reason (Digital Signature)\n>>\nendobj\n\n"
  }

  /** The signature object after its head (`ObjectHead`, which ends in `/Contents <`): the
      signature hex, the optional timestamp entry and the tail. */
  function SignatureObject(head: string, sigHex: string, stampHex: string, now: string): string {
    head + (sigHex + (TimestampEntry(stampHex) + ObjectTail(now)))
  }

  lemma Regroup(a: string, b: string, c: string, d: string)
    ensures a + b + c + d == a + (b + (c + d))
  {
  }

  /** Cutting a three-piece text back into its pieces. */
  lemma ThreePieces(a: string, b: string, c: string)
    ensures (a + (b + c))[..|a|] == a
    ensures (a + (b + c))[|a|..|a| + |b|] == b
    ensures (a + (b + c))[|a|..] == b + c
    ensures (a + (b + c))[|a| + |b|..] == c
  {
  }

  /** The bytes `AddSignatureToPdf` returns: empty without an end-of-file marker, else the
      object inserted at the last marker. */
  function Splice(pdfData: seq<Byte>, signature: seq<Byte>, timestamp: seq<Byte>, now: string): seq<Byte> {
    match FindLast(pdfData, EOF_MARKER)
    case None => []
    case Some(e) => pdfData[..e] + Latin1(SignatureObject(ObjectHead(e), HexLower(signature), HexLower(timestamp), now)) + pdfData[e..]
  }

  /** The splice keeps everything before the last marker and everything from it on,
      inserts exactly the object between them, and so always grows the file. It is empty
      exactly when no marker occurs. */
  lemma SplicePreserves(pdfData: seq<Byte>, signature: seq<Byte>, timestamp: seq<Byte>, now: string)
    ensures Splice(pdfData, signature, timestamp, now) == [] <==> FindLast(pdfData, EOF_MARKER).None?
    ensures FindLast(pdfData, EOF_MARKER).Some? ==>
      var e := FindLast(pdfData, EOF_MARKER).value;
      var obj := Latin1(SignatureObject(ObjectHead(e), HexLower(signature), HexLower(timestamp), now));
      var r := Splice(pdfData, signature, timestamp, now);
      && |r| == |pdfData| + |obj|
      && |r| > |pdfData|
      && r[..e] == pdfData[..e]
      && r[e..e + |obj|] == obj
      && r[e + |obj|..] == pdfData[e..]
  {
    match FindLast(pdfData, EOF_MARKER)
    case None =>
    case Some(e) =>
      var obj := Latin1(SignatureObject(ObjectHead(e), HexLower(signature), HexLower(timestamp), now));
      assert |obj| > 0 by {
        assert |SignatureObject(ObjectHead(e), HexLower(signature), HexLower(timestamp), now)| >= |OBJECT_PREAMBLE|;
      }
      Insertion(pdfData, obj, e);
  }

  /** Inserting `x` at `e` leaves the text on both sides of it in place. */
  lemma Insertion(p: seq<Byte>, x: seq<Byte>, e: nat)
    requires e <= |p|
    ensures var r := p[..e] + x + p[e..];
      && |r| == |p| + |x|
      && r[..e] == p[..e]
      && r[e..e + |x|] == x
      && r[e + |x|..] == p[e..]
  {
    var r := p[..e] + x + p[e..];
    assert r[..e] == p[..e];
    assert r[e..e + |x|] == x;
    assert r[e + |x|..] == p[e..];
  }

  /** The head (ending in `/Contents <`) is followed by the signature hex; by
      `DecodeHexLower`, those digits read back as the signature. */
  lemma ContentsHoldSignature(head: string, sigHex: string, stampHex: string, now: string)
    ensures var obj := SignatureObject(head, sigHex, stampHex, now);
      var k := |head|;
      && k + |sigHex| <= |obj|
      && obj[..k] == head
      && obj[k..k + |sigHex|] == sigHex
  {
    ThreePieces(head, sigHex, TimestampEntry(stampHex) + ObjectTail(now));
  }

  /** After the signature hex comes the `/TimeStamp` entry holding the token hex exactly when
      there is a token; with no token the tail follows at once. */
  lemma TimestampEntryPlacement(head: string, sigHex: string, stampHex: string, now: string)
    ensures var rest := SignatureObject(head, sigHex, stampHex, now)[|head| + |sigHex|..];
      && (stampHex == "" ==> rest == ObjectTail(now))
      && (stampHex != "" ==>
            && rest[..|TIMESTAMP_OPEN|] == TIMESTAMP_OPEN
            && rest[|TIMESTAMP_OPEN|..|TIMESTAMP_OPEN| + |stampHex|] == stampHex
            && rest[|TIMESTAMP_OPEN| + |stampHex|..] == ObjectTail(now))
  {
    ThreePieces(head, sigHex, TimestampEntry(stampHex) + ObjectTail(now));
    if stampHex == "" {
      assert TimestampEntry(stampHex) + ObjectTail(now) == ObjectTail(now);
    } else {
      assert TimestampEntry(stampHex) + ObjectTail(now) == TIMESTAMP_OPEN + (stampHex + ObjectTail(now));
      ThreePieces(TIMESTAMP_OPEN, stampHex, ObjectTail(now));
    }
  }

  /** The byte range's second number comes right after the preamble. `ObjectHead` puts the
      decimal marker offset there, which reads back as the offset by `DecimalRoundTrip`. */
  lemma ByteRangeNamesMarker(start: string, resume: string)
    ensures var k := |OBJECT_PREAMBLE|;
      && k + |start| <= |ByteRangeHead(start, resume)|
      && ByteRangeHead(start, resume)[k..k + |start|] == start
  {
    ThreePieces(OBJECT_PREAMBLE, start, " " + (resume + BYTE_RANGE_CLOSE));
  }

  /** The byte range's third number follows the second after one space. `ObjectHead` puts
      the marker offset plus 1000 there. */
  lemma ByteRangeNamesResume(start: string, resume: string)
    ensures var k := |OBJECT_PREAMBLE| + |start| + 1;
      && k + |resume| <= |ByteRangeHead(start, resume)|
      && ByteRangeHead(start, resume)[k - 1] == ' '
      && ByteRangeHead(start, resume)[k..k + |resume|] == resume
      && ByteRangeHead(start, resume)[k + |resume|..] == BYTE_RANGE_CLOSE
  {
    SecondNumber(OBJECT_PREAMBLE, start, resume, BYTE_RANGE_CLOSE);
  }

  /** In `a + (b + (" " + (c + d)))`, a space follows `b` and then `c`. */
  lemma SecondNumber(a: string, b: string, c: string, d: string)
    ensures var t := a + (b + (" " + (c + d)));
      var k := |a| + |b| + 1;
      && t[k - 1] == ' '
      && t[k..k + |c|] == c
      && t[k + |c|..] == d
  {
    var t := a + (b + (" " + (c + d)));
    assert t == (a + b + " ") + (c + d);
    ThreePieces(a + b + " ", c, d);
  }

  // ---------------------------------------------------------------------
  // Signing stages as values

  /** The signature bytes: empty when hashing fails or no provider handle is held,
      otherwise what the provider signs for the hash. */
  function SignatureBytes(dataToSign: seq<Byte>, cryptProv: nat, env: Environment): (signature: seq<Byte>)
    ensures env.hash(dataToSign) == [] || cryptProv == 0 ==> signature == []
    ensures env.hash(dataToSign) != [] && cryptProv != 0 ==> signature == env.sign(cryptProv, env.hash(dataToSign))
    ensures signature != [] ==> signature == env.sign(cryptProv, env.hash(dataToSign))
  {
    var hash := env.hash(dataToSign);
    if hash == [] then [] else if cryptProv == 0 then [] else env.sign(cryptProv, hash)
  }

  /** The token and server name the timestamp stage contributes: nothing unless it was
      requested and the client succeeded. */
  function TimestampStage(signature: seq<Byte>, includeTimestamp: bool, client: (bool, seq<TSAServer>), env: Environment)
    : (r: (seq<Byte>, string))
    ensures !includeTimestamp ==> r == ([], "")
  {
    if !includeTimestamp then ([], "")
    else
      var response := TimestampOutcome(client.0, client.1, TSARequestBytes(env.hash(signature), env.nonce), env.transport);
      if response.success then (response.timestampData, response.serverUsed) else ([], "")
  }

  /** How far the shared signing stages got: the signed document and the server name, or
      the stage that failed and the server name recorded before it. */
  datatype Embedding = Embedded(signedPdf: seq<Byte>, timestampServer: string)
                     | NotEmbedded(stage: Stage, timestampServer: string)

  /** Sign, optionally timestamp, and splice the object in: the stages both pipelines share. */
  function Embed(pdfData: seq<Byte>, cryptProv: nat, includeTimestamp: bool,
                 client: (bool, seq<TSAServer>), env: Environment): Embedding
  {
    var signature := SignatureBytes(pdfData, cryptProv, env);
    if signature == [] then NotEmbedded(SignStage, "")
    else
      var (timestamp, server) := TimestampStage(signature, includeTimestamp, client, env);
      var signedPdf := Splice(pdfData, signature, timestamp, env.objectTime);
      if signedPdf == [] then NotEmbedded(EmbedStage, server) else Embedded(signedPdf, server)
  }

  /** What `SignPdf` reports. `client` is the timestamp client's WinINet state and server list. */
  function SignPdfOutcome(inputPdfPath: string, outputPdfPath: string, cryptProv: nat, includeTimestamp: bool,
                          client: (bool, seq<TSAServer>), env: Environment): SigningResult
  {
    var pdfData := env.read(inputPdfPath);
    if pdfData == [] then Refused(ReadStage, 0, "")
    else if !ValidatePdfData(env.read(inputPdfPath)) then Refused(HeaderStage, |pdfData|, "")
    else match Embed(pdfData, cryptProv, includeTimestamp, client, env)
      case NotEmbedded(stage, server) => Refused(stage, |pdfData|, server)
      case Embedded(signedPdf, server) =>
        if !env.write(outputPdfPath, signedPdf) then Refused(WriteStage, |pdfData|, server)
        else SigningResult(true, "", outputPdfPath, server, env.signingTime, |pdfData|, |signedPdf|)
  }

  /** The bytes `SignPdf` hands to the writer, if it gets that far. */
  function WrittenBytes(inputPdfPath: string, cryptProv: nat, includeTimestamp: bool,
                        client: (bool, seq<TSAServer>), env: Environment): Option<seq<Byte>>
  {
    var pdfData := env.read(inputPdfPath);
    if pdfData == [] || !ValidatePdfData(pdfData) then None
    else match Embed(pdfData, cryptProv, includeTimestamp, client, env)
      case NotEmbedded(_, _) => None
      case Embedded(signedPdf, _) => Some(signedPdf)
  }

  /** `SignPdfFromMemory`: no header check, no write, no output path. */
  function SignMemoryOutcome(pdfData: seq<Byte>, cryptProv: nat, includeTimestamp: bool,
                             client: (bool, seq<TSAServer>), env: Environment): SigningResult
  {
    match Embed(pdfData, cryptProv, includeTimestamp, client, env)
    case NotEmbedded(stage, server) => Refused(stage, |pdfData|, server)
    case Embedded(signedPdf, server) => SigningResult(true, "", "", server, env.signingTime, |pdfData|, |signedPdf|)
  }

  /** The shared stages: no signature stops at signing; a document without an end-of-file
      marker stops at embedding; otherwise the signed document is the splice, strictly
      longer than the input. */
  lemma EmbedStages(pdfData: seq<Byte>, cryptProv: nat, includeTimestamp: bool,
                    client: (bool, seq<TSAServer>), env: Environment)
    ensures var signature := SignatureBytes(pdfData, cryptProv, env);
      var m := Embed(pdfData, cryptProv, includeTimestamp, client, env);
      && (signature == [] ==> m == NotEmbedded(SignStage, ""))
      && (signature != [] && FindLast(pdfData, EOF_MARKER).None? ==> m.NotEmbedded? && m.stage == EmbedStage)
      && (m.Embedded? <==> signature != [] && FindLast(pdfData, EOF_MARKER).Some?)
      && (m.Embedded? ==>
            && m.signedPdf == Splice(pdfData, signature, TimestampStage(signature, includeTimestamp, client, env).0, env.objectTime)
            && |m.signedPdf| > |pdfData|)
  {
    var signature := SignatureBytes(pdfData, cryptProv, env);
    if signature != [] {
      SplicePreserves(pdfData, signature, TimestampStage(signature, includeTimestamp, client, env).0, env.objectTime);
    }
  }

  /** A timestamp server is named only when a timestamp was requested and obtained, and then
      it is the server the client used. */
  lemma EmbedServer(pdfData: seq<Byte>, cryptProv: nat, includeTimestamp: bool,
                    client: (bool, seq<TSAServer>), env: Environment)
    ensures var signature := SignatureBytes(pdfData, cryptProv, env);
      var response := TimestampOutcome(client.0, client.1, TSARequestBytes(env.hash(signature), env.nonce), env.transport);
      var m := Embed(pdfData, cryptProv, includeTimestamp, client, env);
      && (m.timestampServer != "" ==> includeTimestamp && response.success && m.timestampServer == response.serverUsed)
      && (m.Embedded? && includeTimestamp && response.success ==> m.timestampServer == response.serverUsed)
  {
  }

  /** A timestamp that cannot be obtained is not fatal: the shared stages end as they would
      without a timestamp request. */
  lemma TimestampFailureNotFatal(pdfData: seq<Byte>, cryptProv: nat, client: (bool, seq<TSAServer>), env: Environment)
    requires var signature := SignatureBytes(pdfData, cryptProv, env);
      !TimestampOutcome(client.0, client.1, TSARequestBytes(env.hash(signature), env.nonce), env.transport).success
    ensures Embed(pdfData, cryptProv, true, client, env) == Embed(pdfData, cryptProv, false, client, env)
  {
  }

  /** The file pipeline stops at the first failing stage and reports it. */
  lemma SignPdfStages(inputPdfPath: string, outputPdfPath: string, cryptProv: nat, includeTimestamp: bool,
                      client: (bool, seq<TSAServer>), env: Environment)
    ensures var pdfData := env.read(inputPdfPath);
      var r := SignPdfOutcome(inputPdfPath, outputPdfPath, cryptProv, includeTimestamp, client, env);
      var m := Embed(pdfData, cryptProv, includeTimestamp, client, env);
      && (pdfData == [] ==> r == Refused(ReadStage, 0, ""))
      && (pdfData != [] && !ValidatePdfData(pdfData) ==> r == Refused(HeaderStage, |pdfData|, ""))
      && (ValidatePdfData(pdfData) && m.NotEmbedded? ==> r == Refused(m.stage, |pdfData|, m.timestampServer))
      && (ValidatePdfData(pdfData) && m.Embedded? && !env.write(outputPdfPath, m.signedPdf) ==>
            r == Refused(WriteStage, |pdfData|, m.timestampServer))
      && (r.success <==> ValidatePdfData(pdfData) && m.Embedded? && env.write(outputPdfPath, m.signedPdf))
  {
  }

  /** A header that fails the check stops the pipeline before any signing: the outcome does
      not depend on the signing routine, and nothing is written. */
  lemma InvalidHeaderSignsNothing(inputPdfPath: string, outputPdfPath: string, cryptProv: nat, includeTimestamp: bool,
                                  client: (bool, seq<TSAServer>), env: Environment, otherSign: (nat, seq<Byte>) -> seq<Byte>)
    requires !ValidatePdfData(env.read(inputPdfPath))
    ensures SignPdfOutcome(inputPdfPath, outputPdfPath, cryptProv, includeTimestamp, client, env)
            == SignPdfOutcome(inputPdfPath, outputPdfPath, cryptProv, includeTimestamp, client, env.(sign := otherSign))
    ensures WrittenBytes(inputPdfPath, cryptProv, includeTimestamp, client, env) == None
  {
  }

  /** A successful signing names the output path, writes the spliced document and grows it. */
  lemma SignPdfSuccess(inputPdfPath: string, outputPdfPath: string, cryptProv: nat, includeTimestamp: bool,
                       client: (bool, seq<TSAServer>), env: Environment)
    requires SignPdfOutcome(inputPdfPath, outputPdfPath, cryptProv, includeTimestamp, client, env).success
    ensures var r := SignPdfOutcome(inputPdfPath, outputPdfPath, cryptProv, includeTimestamp, client, env);
      var written := WrittenBytes(inputPdfPath, cryptProv, includeTimestamp, client, env);
      && r.signedPdfPath == outputPdfPath
      && r.errorMessage == ""
      && r.originalSize == |env.read(inputPdfPath)|
      && written.Some? && r.signedSize == |written.value|
      && r.signedSize > r.originalSize
  {
    EmbedStages(env.read(inputPdfPath), cryptProv, includeTimestamp, client, env);
  }

  /** From memory the pipeline is the file pipeline without the header check and without an
      output path: on data that passes the check and is written, the two agree except for
      the path. */
  lemma MemoryMatchesFile(inputPdfPath: string, outputPdfPath: string, cryptProv: nat, includeTimestamp: bool,
                          client: (bool, seq<TSAServer>), env: Environment)
    requires SignPdfOutcome(inputPdfPath, outputPdfPath, cryptProv, includeTimestamp, client, env).success
    ensures SignMemoryOutcome(env.read(inputPdfPath), cryptProv, includeTimestamp, client, env)
            == SignPdfOutcome(inputPdfPath, outputPdfPath, cryptProv, includeTimestamp, client, env).(signedPdfPath := "")
  {
  }

  /** From memory no header is checked: a document without `%PDF-` is still signed. */
  lemma MemorySkipsHeaderCheck(pdfData: seq<Byte>, cryptProv: nat, includeTimestamp: bool,
                               client: (bool, seq<TSAServer>), env: Environment)
    requires !ValidatePdfData(pdfData)
    requires SignatureBytes(pdfData, cryptProv, env) != []
    requires FindLast(pdfData, EOF_MARKER).Some?
    ensures SignMemoryOutcome(pdfData, cryptProv, includeTimestamp, client, env).success
  {
    EmbedStages(pdfData, cryptProv, includeTimestamp, client, env);
  }

  // ---------------------------------------------------------------------
  // The signer object

  class PdfSigner {
    const tsaClient: TSAClient

    constructor (internetOpened: bool)
      ensures fresh(tsaClient)
      ensures tsaClient.internetOpen == internetOpened && tsaClient.tsaServers == DefaultServers()
    {
      tsaClient := new TSAClient(internetOpened);
    }

    /** `ValidatePdf` reads the file itself. */
    static method ValidatePdf(pdfPath: string, read: string -> seq<Byte>) returns (valid: bool)
      ensures valid <==> |read(pdfPath)| >= 8 && read(pdfPath)[..5] == PDF_HEADER
    {
      var pdfData := read(pdfPath);
      if |pdfData| < 8 {
        return false;
      }
      valid := ValidatePdfData(pdfData);
    }

    /** Zero for an unreadable or empty file; otherwise the number of page objects, or 1
        when there are none. */
    static method GetPageCount(pdfPath: string, read: string -> seq<Byte>) returns (count: int)
      ensures read(pdfPath) == [] ==> count == 0
      ensures read(pdfPath) != [] ==>
                count == if CountPages(read(pdfPath), 0) > 0 then CountPages(read(pdfPath), 0) else 1
    {
      var pdfData := read(pdfPath);
      if pdfData == [] {
        return 0;
      }
      var pos := 0;
      var pageCount := 0;
      while true
        invariant pos <= |pdfData|
        invariant PageHits(pdfData, 0) == pageCount + PageHits(pdfData, pos)
        decreases |pdfData| - pos
      {
        var found := FindFrom(pdfData, PAGE_KEY, pos);
        if found.None? {
          break;
        }
        pos := found.value;
        if pos + 11 < |pdfData| && pdfData[pos + 11] != LOWER_S {
          pageCount := pageCount + 1;
        }
        pos := pos + 11;
      }
      PageHitsCountsPages(pdfData, 0);
      count := if pageCount > 0 then pageCount else 1;
    }

    /** A fixed US Letter page, whatever the document or page. */
    static method GetPageDimensions(pdfPath: string, pageNumber: int) returns (ok: bool, width: real, height: real)
      ensures ok && width == 612.0 && height == 792.0
    {
      width := 612.0;
      height := 792.0;
      ok := true;
    }

    /** Hashes the data and signs the hash with the manager's provider handle. */
    static method CreateSignature(dataToSign: seq<Byte>, certManager: CertificateManager.CertificateManager, env: Environment)
      returns (signature: seq<Byte>)
      ensures signature == SignatureBytes(dataToSign, certManager.cryptProv, env)
    {
      var hash := env.hash(dataToSign);
      if hash == [] {
        return [];
      }
      var cryptProv := certManager.GetPrivateKeyHandle();
      if cryptProv == 0 {
        return [];
      }
      signature := env.sign(cryptProv, hash);
    }

    /** Streams the object text, hex byte by hex byte, and inserts it at the last marker;
        `position` plays no part. */
    static method AddSignatureToPdf(pdfData: seq<Byte>, signature: seq<Byte>, position: SignaturePosition,
                             timestamp: seq<Byte>, now: string) returns (signedPdf: seq<Byte>)
      ensures signedPdf == Splice(pdfData, signature, timestamp, now)
    {
      var eof := FindLast(pdfData, EOF_MARKER);
      if eof.None? {
        return [];
      }
      var eofPos := eof.value;
      var sigObj := ObjectHead(eofPos);
      sigObj := AppendHex(sigObj, signature);
      var entry := "";
      if timestamp != [] {
        entry := AppendHex(TIMESTAMP_OPEN, timestamp);
      }
      sigObj := sigObj + entry + ObjectTail(now);
      Regroup(ObjectHead(eofPos), HexLower(signature), entry, ObjectTail(now));
      signedPdf := pdfData[..eofPos] + Latin1(sigObj) + pdfData[eofPos..];
    }

    /** Writes each byte as two lowercase hex digits after `text`. */
    static method AppendHex(text: string, bytes: seq<Byte>) returns (out: string)
      ensures out == text + HexLower(bytes)
    {
      out := text;
      var i := 0;
      while i < |bytes|
        invariant 0 <= i <= |bytes|
        invariant out == text + HexLower(bytes[..i])
      {
        assert bytes[..i + 1] == bytes[..i] + [bytes[i]];
        HexLowerAppend(bytes[..i], [bytes[i]]);
        out := out + ByteHex(bytes[i]);
        i := i + 1;
      }
      assert bytes[..i] == bytes;
    }

    /** The file pipeline; `written` is what was handed to the writer. */
    method SignPdf(inputPdfPath: string, outputPdfPath: string, certManager: CertificateManager.CertificateManager,
                   position: SignaturePosition, includeTimestamp: bool, env: Environment)
      returns (result: SigningResult, ghost written: Option<seq<Byte>>)
      requires |env.nonce| == 8
      ensures result == SignPdfOutcome(inputPdfPath, outputPdfPath, certManager.cryptProv, includeTimestamp,
                                       (tsaClient.internetOpen, tsaClient.tsaServers), env)
      ensures written == WrittenBytes(inputPdfPath, certManager.cryptProv, includeTimestamp,
                                      (tsaClient.internetOpen, tsaClient.tsaServers), env)
    {
      written := None;
      var pdfData := env.read(inputPdfPath);
      if pdfData == [] {
        return Refused(ReadStage, 0, ""), None;
      }
      var valid := ValidatePdf(inputPdfPath, env.read);
      if !valid {
        return Refused(HeaderStage, |pdfData|, ""), None;
      }
      var embedding := SignAndEmbed(pdfData, certManager, position, includeTimestamp, env);
      if embedding.NotEmbedded? {
        return Refused(embedding.stage, |pdfData|, embedding.timestampServer), None;
      }
      written := Some(embedding.signedPdf);
      if !env.write(outputPdfPath, embedding.signedPdf) {
        return Refused(WriteStage, |pdfData|, embedding.timestampServer), written;
      }
      result := SigningResult(true, "", outputPdfPath, embedding.timestampServer, env.signingTime,
                              |pdfData|, |embedding.signedPdf|);
    }

    /** Signs, asks for a timestamp when requested and splices the object in. */
    method SignAndEmbed(pdfData: seq<Byte>, certManager: CertificateManager.CertificateManager,
                        position: SignaturePosition, includeTimestamp: bool, env: Environment)
      returns (embedding: Embedding)
      requires |env.nonce| == 8
      ensures embedding == Embed(pdfData, certManager.cryptProv, includeTimestamp,
                                 (tsaClient.internetOpen, tsaClient.tsaServers), env)
    {
      var signature := CreateSignature(pdfData, certManager, env);
      if signature == [] {
        return NotEmbedded(SignStage, "");
      }
      var timestamp, server := ObtainTimestamp(signature, includeTimestamp, env);
      var signedPdf := AddSignatureToPdf(pdfData, signature, position, timestamp, env.objectTime);
      if signedPdf == [] {
        return NotEmbedded(EmbedStage, server);
      }
      embedding := Embedded(signedPdf, server);
    }

    /** The timestamp stage shared by both pipelines: asks the client for a token over the
        signature's hash and keeps it only on success. */
    method ObtainTimestamp(signature: seq<Byte>, includeTimestamp: bool, env: Environment)
      returns (timestamp: seq<Byte>, server: string)
      requires |env.nonce| == 8
      ensures (timestamp, server) == TimestampStage(signature, includeTimestamp, (tsaClient.internetOpen, tsaClient.tsaServers), env)
    {
      timestamp, server := [], "";
      if includeTimestamp {
        var signatureHash := env.hash(signature);
        var tsaResponse := tsaClient.GetTimestamp(signatureHash, "SHA256", env.nonce, env.transport);
        if tsaResponse.success {
          timestamp := tsaResponse.timestampData;
          server := tsaResponse.serverUsed;
        }
      }
    }

    /** The in-memory pipeline: no header check, no write, no output path. */
    method SignPdfFromMemory(pdfData: seq<Byte>, certManager: CertificateManager.CertificateManager,
                             position: SignaturePosition, includeTimestamp: bool, env: Environment)
      returns (result: SigningResult)
      requires |env.nonce| == 8
      ensures result == SignMemoryOutcome(pdfData, certManager.cryptProv, includeTimestamp,
                                          (tsaClient.internetOpen, tsaClient.tsaServers), env)
    {
      var embedding := SignAndEmbed(pdfData, certManager, position, includeTimestamp, env);
      if embedding.NotEmbedded? {
        return Refused(embedding.stage, |pdfData|, embedding.timestampServer);
      }
      result := SigningResult(true, "", "", embedding.timestampServer, env.signingTime,
                              |pdfData|, |embedding.signedPdf|);
    }
  }
}
