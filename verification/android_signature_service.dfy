/** The Android signing service: request validation, the path of the signed copy, the
    text of the visible signature, and the outcome logic of `signPdf` with its timestamp
    pre-fetch and its retry without a timestamp. The key store, the PDF reader and writer
    and the detached-signature call are oracles that either succeed or throw. */
module AndroidSignatureService {
  import opened Wrappers
  import opened Text
  import Tsa = AndroidTsaClient

  /** The request; the position and size of the signature box are left out. */
  datatype SignatureRequest = SignatureRequest(
    pdfPath: string,
    certificatePath: string,
    certificatePassword: string,
    signerName: string,
    location: string,
    reason: string,
    signaturePage: int,
    enableTimestamp: bool,
    timestampServerUrl: Option<string>)

  /** The result; `error` is the message of the exception caught, when there was one. */
  datatype SignatureResult = SignatureResult(
    success: bool,
    message: string,
    signedFilePath: Option<string>,
    timestampUsed: bool,
    timestampInfo: Option<string>,
    tsaServerUsed: Option<string>,
    warning: Option<string>,
    error: Option<Option<string>>)

  /** A library call that either completes or throws with a (possibly missing) message. */
  datatype Step = Completed | Thrown(message: Option<string>)

  /** The world `signPdf` runs in. `signDetached` receives the timestamp information the
      signature box shows (the rest of the box is fixed by the request and the date) and
      whether a timestamp client is attached. */
  datatype Environment = Environment(
    fileExists: string -> bool,
    loadKeys: (string, string) -> Step,
    openSigner: (string, string, nat) -> Step,
    signDetached: (Option<string>, bool) -> Step,
    tsaRequest: Tsa.Requester,
    tsaInterrupted: Tsa.Interruption,
    date: string)

  // ---------------------------------------------------------------------
  // Validation

  /** `validateRequest`: the message of the first failed requirement, in the order the
      checks are made. */
  function ValidationError(request: SignatureRequest, fileExists: string -> bool): Option<string> {
    if !fileExists(request.pdfPath) then Some("PDF file not found: " + request.pdfPath)
    else if !fileExists(request.certificatePath) then Some("Certificate file not found: " + request.certificatePath)
    else if !IsNotBlank(request.certificatePassword) then Some("Certificate password is required")
    else if !IsNotBlank(request.signerName) then Some("Signer name is required")
    else None
  }

  /** A request passes exactly when both files exist and the password and signer name
      are not blank; a blank password is reported only once both files exist. */
  lemma ValidationCases(request: SignatureRequest, fileExists: string -> bool)
    ensures ValidationError(request, fileExists).None? <==>
      fileExists(request.pdfPath) && fileExists(request.certificatePath) &&
      IsNotBlank(request.certificatePassword) && IsNotBlank(request.signerName)
    ensures fileExists(request.pdfPath) && fileExists(request.certificatePath) && !IsNotBlank(request.certificatePassword) ==>
      ValidationError(request, fileExists) == Some("Certificate password is required")
    ensures !fileExists(request.pdfPath) ==> ValidationError(request, fileExists) == Some("PDF file not found: " + request.pdfPath)
  {
  }

  // ---------------------------------------------------------------------
  // Output path

  /** `File.getParent` for a normalised Unix path: everything before the last `/`, the
      root for a file directly under it, and `None` when there is no directory part. */
  function ParentOf(path: string): (parent: Option<string>)
    ensures parent.Some? ==> |parent.value| < |path| && parent.value == path[..|parent.value|]
  {
    var prefix := if path != [] && path[0] == '/' then 1 else 0;
    match LastIndexOf(path, '/')
    case None => None
    case Some(i) =>
      if i < prefix then (if |path| > prefix then Some(path[..prefix]) else None)
      else Some(path[..i])
  }

  /** `File.getName`: everything after the last `/`. */
  function NameOf(path: string): (name: string)
    ensures '/' !in name
  {
    match LastIndexOf(path, '/')
    case None => path
    case Some(i) =>
      var name := path[i + 1..];
      assert forall k :: 0 <= k < |name| ==> name[k] == path[i + 1 + k];
      name
  }

  /** `nameWithoutExtension`: the name before its last `.`, or all of it. */
  function StemOf(name: string): string {
    match LastIndexOf(name, '.')
    case None => name
    case Some(i) => name[..i]
  }

  /** `extension`: the name after its last `.`, or empty. */
  function ExtensionOf(name: string): (ext: string)
    ensures '.' !in ext
  {
    match LastIndexOf(name, '.')
    case None => ""
    case Some(i) =>
      var ext := name[i + 1..];
      assert forall k :: 0 <= k < |ext| ==> ext[k] == name[i + 1 + k];
      ext
  }

  const SIGNED_SUFFIX: string := "_signed_android."

  /** `generateOutputPath`. */
  function OutputPath(originalPath: string): string {
    var name := NameOf(originalPath);
    ParentOf(originalPath).GetOr("") + "/" + StemOf(name) + SIGNED_SUFFIX + ExtensionOf(name)
  }

  /** The stem and the extension put back together give the name. */
  lemma StemAndExtension(name: string)
    ensures '.' in name ==> StemOf(name) + "." + ExtensionOf(name) == name
    ensures '.' !in name ==> StemOf(name) == name && ExtensionOf(name) == ""
  {
  }

  /** The signed copy of `dir/stem.ext` is `dir/stem_signed_android.ext`, in the same
      directory. */
  lemma OutputBesideInput(dir: string, stem: string, ext: string)
    requires dir != [] && '/' !in stem && '/' !in ext && '.' !in ext
    ensures OutputPath(dir + "/" + stem + "." + ext) == dir + "/" + stem + SIGNED_SUFFIX + ext
  {
    var name := stem + "." + ext;
    assert '/' !in name;
    var path := dir + "/" + name;
    assert dir + "/" + stem + "." + ext == path;
    LastOccurrence(dir, '/', name);
    assert path == dir + ['/'] + name;
    assert ParentOf(path) == Some(dir);
    assert NameOf(path) == name;
    LastOccurrence(stem, '.', ext);
    assert name == stem + ['.'] + ext;
    assert StemOf(name) == stem;
    assert ExtensionOf(name) == ext;
  }

  /** In `a + [c] + b` with no `c` in `b`, the last `c` is the one between them. */
  lemma {:induction false} LastOccurrence(a: string, c: char, b: string)
    requires c !in b
    ensures LastIndexOf(a + [c] + b, c) == Some(|a|)
    ensures (a + [c] + b)[..|a|] == a && (a + [c] + b)[|a| + 1..] == b
    decreases |b|
  {
    var s := a + [c] + b;
    if b != [] {
      var b' := b[..|b| - 1];
      assert s[..|s| - 1] == a + [c] + b';
      LastOccurrence(a, c, b');
    }
  }

  /** A bare file name gets an empty parent, so the signed copy starts with `/`. */
  lemma OutputWithoutDirectory(name: string)
    requires '/' !in name
    ensures OutputPath(name) == "/" + StemOf(name) + SIGNED_SUFFIX + ExtensionOf(name)
  {
  }

  // ---------------------------------------------------------------------
  // Appearance text

  /** The timestamp lines of the appearance text. */
  function TimestampLines(request: SignatureRequest, timestampInfo: Option<string>): string {
    if request.enableTimestamp then
      var server := "TSA Server: " + Tsa.DisplayName(request.timestampServerUrl.GetOr(""));
      match timestampInfo
      case Some(info) => "Timestamp: " + info + "\n" + server
      case None => "Timestamp: Requested but not available\n" + server
    else "Timestamp: Not included"
  }

  /** The four lines naming signer, date, location and reason. */
  function SignerLines(request: SignatureRequest, date: string): string {
    "Signed by: " + request.signerName + "\n" + "Date: " + date + "\n" +
    "Location: " + request.location + "\n" + "Reason: " + request.reason + "\n"
  }

  /** The text `configureSignatureAppearance` puts in the signature box. */
  function AppearanceText(request: SignatureRequest, timestampInfo: Option<string>, date: string): string {
    SignerLines(request, date) + TimestampLines(request, timestampInfo)
  }

  /** After the signer lines, the box says the timestamp was not included when it was
      not asked for, shows the timestamp when one was obtained, and says it was
      requested but not available otherwise; the signer lines do not depend on it. */
  lemma AppearanceTimestamp(request: SignatureRequest, timestampInfo: Option<string>, date: string)
    ensures var text := AppearanceText(request, timestampInfo, date);
      var head := SignerLines(request, date);
      && StartsWith(text, head)
      && (!request.enableTimestamp ==> text[|head|..] == "Timestamp: Not included")
      && (request.enableTimestamp && timestampInfo.Some? ==>
            StartsWith(text[|head|..], "Timestamp: " + timestampInfo.value + "\n"))
      && (request.enableTimestamp && timestampInfo.None? ==>
            StartsWith(text[|head|..], "Timestamp: Requested but not available\n"))
  {
    var text := AppearanceText(request, timestampInfo, date);
    var head := SignerLines(request, date);
    assert text[..|head|] == head;
    assert text[|head|..] == TimestampLines(request, timestampInfo);
  }

  // ---------------------------------------------------------------------
  // Signing

  /** The message the pre-fetch timestamps: the bytes of "dummy_for_timestamp". */
  const DUMMY_MESSAGE: seq<Byte> := [100, 117, 109, 109, 121, 95, 102, 111, 114, 95, 116, 105, 109, 101, 115, 116, 97, 109, 112]

  /** `obtainTimestamp`: the client's answer for the dummy message. */
  function PrefetchResult(request: SignatureRequest, env: Environment): Tsa.TimestampResult {
    Tsa.TokenOutcome(request.timestampServerUrl, DUMMY_MESSAGE, env.tsaRequest, env.tsaInterrupted)
  }

  const FAILURE_PREFIX: string := "Failed to sign PDF: "
  const SIGNED_MESSAGE: string := "Document signed successfully"
  const SIGNED_WITHOUT_TIMESTAMP_MESSAGE: string := "Document signed successfully (without timestamp)"
  const TIMESTAMP_WARNING: string := "Timestamp was requested but failed, document signed without timestamp"

  /** The result built from an exception that escaped. */
  function Failed(message: Option<string>): (r: SignatureResult)
    ensures !r.success && StartsWith(r.message, FAILURE_PREFIX) && r.error == Some(message)
    ensures r.signedFilePath.None? && !r.timestampUsed && r.timestampInfo.None?
  {
    SignatureResult(false, FAILURE_PREFIX + message.GetOr("null"), None, false, None, None, None, Some(message))
  }

  /** What `signPdf` produced: the result and, when a signature was written, the
      timestamp information its box shows (its text is `AppearanceText` of that). */
  datatype Signing = Signing(result: SignatureResult, shown: Option<Option<string>>)

  /** The outcome of `signPdf`. */
  function SignOutcome(request: SignatureRequest, env: Environment): Signing {
    SignWith(request, env, PrefetchResult(request, env))
  }

  /** The outcome of `signPdf` when the pre-fetch, if made, answers `prefetch`. */
  function SignWith(request: SignatureRequest, env: Environment, prefetch: Tsa.TimestampResult): Signing {
    match ValidationError(request, env.fileExists)
    case Some(m) => Signing(Failed(Some(m)), None)
    case None =>
      match env.loadKeys(request.certificatePath, request.certificatePassword)
      case Thrown(m) => Signing(Failed(m), None)
      case Completed =>
        var outputFile := OutputPath(request.pdfPath);
        match env.openSigner(request.pdfPath, outputFile, 1)
        case Thrown(m) => Signing(Failed(m), None)
        case Completed =>
          var attached := request.enableTimestamp && prefetch.success;
          var timestampInfo := if attached then prefetch.timestampInfo else None;
          match env.signDetached(timestampInfo, attached)
          case Completed =>
            Signing(SignatureResult(true, SIGNED_MESSAGE, Some(outputFile), timestampInfo.Some?, timestampInfo,
                                    if timestampInfo.Some? then request.timestampServerUrl else None, None, None),
                    Some(timestampInfo))
          case Thrown(m) =>
            if !attached then Signing(Failed(m), None)
            else RetryOutcome(request, env, outputFile)
  }

  /** The second attempt, with a fresh reader and writer and no timestamp client. */
  function RetryOutcome(request: SignatureRequest, env: Environment, outputFile: string): Signing {
    match env.openSigner(request.pdfPath, outputFile, 2)
    case Thrown(m) => Signing(Failed(m), None)
    case Completed =>
      match env.signDetached(None, false)
      case Thrown(m) => Signing(Failed(m), None)
      case Completed =>
        Signing(SignatureResult(true, SIGNED_WITHOUT_TIMESTAMP_MESSAGE, Some(outputFile), false, None, None,
                                Some(TIMESTAMP_WARNING), None),
                Some(None))
  }

  /** Every failure carries the prefix and the exception; every success names the
      signed copy; `timestampUsed` holds exactly when a timestamp is reported, and the
      server reported is the one the request named, not the one that answered. */
  lemma OutcomeShape(request: SignatureRequest, env: Environment, prefetch: Tsa.TimestampResult)
    ensures var r := SignWith(request, env, prefetch).result;
      && (!r.success ==> StartsWith(r.message, FAILURE_PREFIX) && r.error.Some? && r.signedFilePath.None?)
      && (r.success ==> r.signedFilePath == Some(OutputPath(request.pdfPath)) && r.error.None?)
      && (r.timestampUsed <==> r.timestampInfo.Some?)
      && (r.timestampUsed ==> r.success && r.tsaServerUsed == request.timestampServerUrl && request.enableTimestamp)
  {
    if ValidationError(request, env.fileExists).None? &&
       env.loadKeys(request.certificatePath, request.certificatePassword).Completed? {
      var outputFile := OutputPath(request.pdfPath);
      if env.openSigner(request.pdfPath, outputFile, 1).Completed? {
        var attached := request.enableTimestamp && prefetch.success;
        var timestampInfo := if attached then prefetch.timestampInfo else None;
        if env.signDetached(timestampInfo, attached).Thrown? && attached {
          assert SignWith(request, env, prefetch) == RetryOutcome(request, env, outputFile);
        }
      }
    }
  }

  /** A failed pre-fetch is not fatal: signing goes on with no timestamp client, and the
      box says the timestamp was requested but not available. */
  lemma PrefetchFailureProceeds(request: SignatureRequest, env: Environment, prefetch: Tsa.TimestampResult)
    requires ValidationError(request, env.fileExists).None?
    requires env.loadKeys(request.certificatePath, request.certificatePassword).Completed?
    requires env.openSigner(request.pdfPath, OutputPath(request.pdfPath), 1).Completed?
    requires !prefetch.success
    ensures env.signDetached(None, false).Completed? ==>
      SignWith(request, env, prefetch) == Signing(
        SignatureResult(true, SIGNED_MESSAGE, Some(OutputPath(request.pdfPath)), false, None, None, None, None),
        Some(None))
    ensures env.signDetached(None, false).Thrown? ==>
      SignWith(request, env, prefetch).result == Failed(env.signDetached(None, false).message)
  {
  }

  /** When signing with a timestamp client throws, the document is signed once more
      without it and the result says so; without a client the exception is the
      failure. */
  lemma RetryWithoutTimestamp(request: SignatureRequest, env: Environment, prefetch: Tsa.TimestampResult)
    requires ValidationError(request, env.fileExists).None?
    requires env.loadKeys(request.certificatePath, request.certificatePassword).Completed?
    requires env.openSigner(request.pdfPath, OutputPath(request.pdfPath), 1).Completed?
    ensures var attached := request.enableTimestamp && prefetch.success;
      var shown := if attached then prefetch.timestampInfo else None;
      && (attached && env.signDetached(shown, true).Thrown? &&
          env.openSigner(request.pdfPath, OutputPath(request.pdfPath), 2).Completed? &&
          env.signDetached(None, false).Completed? ==>
            SignWith(request, env, prefetch) == Signing(
              SignatureResult(true, SIGNED_WITHOUT_TIMESTAMP_MESSAGE, Some(OutputPath(request.pdfPath)), false, None,
                              None, Some(TIMESTAMP_WARNING), None),
              Some(None)))
      && (!attached && env.signDetached(shown, false).Thrown? ==>
            SignWith(request, env, prefetch).result == Failed(env.signDetached(shown, false).message))
  {
  }

  class PdfSignatureService {
    constructor () {
    }

    /** `validateRequest`, reporting the first failed requirement. */
    static method ValidateRequest(request: SignatureRequest, fileExists: string -> bool) returns (error: Option<string>)
      ensures error == ValidationError(request, fileExists)
    {
      if !fileExists(request.pdfPath) {
        return Some("PDF file not found: " + request.pdfPath);
      }
      if !fileExists(request.certificatePath) {
        return Some("Certificate file not found: " + request.certificatePath);
      }
      if !IsNotBlank(request.certificatePassword) {
        return Some("Certificate password is required");
      }
      if !IsNotBlank(request.signerName) {
        return Some("Signer name is required");
      }
      return None;
    }

    static method ObtainTimestamp(request: SignatureRequest, env: Environment) returns (r: Tsa.TimestampResult)
      ensures r == PrefetchResult(request, env)
    {
      r := Tsa.TSAClient.GetTimestampToken(DUMMY_MESSAGE, request.timestampServerUrl, env.tsaRequest,
                                            env.tsaInterrupted);
    }

    /** `signPdf`: validation, key loading, opening, the optional timestamp, signing, and
        one retry without the timestamp client. */
    static method SignPdf(request: SignatureRequest, env: Environment) returns (result: SignatureResult)
      ensures result == SignOutcome(request, env).result
    {
      var invalid := ValidateRequest(request, env.fileExists);
      if invalid.Some? {
        return Failed(Some(invalid.value));
      }
      var keys := env.loadKeys(request.certificatePath, request.certificatePassword);
      if keys.Thrown? {
        return Failed(keys.message);
      }
      var outputFile := OutputPath(request.pdfPath);
      var opening := env.openSigner(request.pdfPath, outputFile, 1);
      if opening.Thrown? {
        return Failed(opening.message);
      }
      var tsaClientForSigning := false;
      var timestampInfo: Option<string> := None;
      if request.enableTimestamp {
        var timestampResult := ObtainTimestamp(request, env);
        if timestampResult.success {
          tsaClientForSigning := true;
          timestampInfo := timestampResult.timestampInfo;
        }
      }
      var signing := env.signDetached(timestampInfo, tsaClientForSigning);
      if signing.Completed? {
        return SignatureResult(true, SIGNED_MESSAGE, Some(outputFile), timestampInfo.Some?, timestampInfo,
                               if timestampInfo.Some? then request.timestampServerUrl else None, None, None);
      }
      if !tsaClientForSigning {
        return Failed(signing.message);
      }
      var reopening := env.openSigner(request.pdfPath, outputFile, 2);
      if reopening.Thrown? {
        return Failed(reopening.message);
      }
      var retry := env.signDetached(None, false);
      if retry.Thrown? {
        return Failed(retry.message);
      }
      return SignatureResult(true, SIGNED_WITHOUT_TIMESTAMP_MESSAGE, Some(outputFile), false, None, None,
                             Some(TIMESTAMP_WARNING), None);
    }
  }
}
