/**
  The backend's REST controller under /api/signature: it checks the uploads, hands the
  work to the signature service and turns the outcome into an HTTP response. It
  fills JSON response maps entry by entry and builds the signing request field by field.

  The signature service itself is a parameter: each of its calls is a total function
  whose result is either the answer or the message of the exception thrown while reading
  the upload or serving the call.
 */
module SignatureController {
  import opened Wrappers
  import opened Text
  import Certs = CertificateService
  import Storage = DocumentStorage

  /** A multipart upload: its bytes, and the client's file name and content type (`None`
      where Spring reports null). It is empty when it has no bytes. */
  datatype Upload = Upload(bytes: seq<Byte>, originalFilename: Option<string>, contentType: Option<string>)

  /** A JSON value in a response map. */
  datatype Value = StringValue(text: string) | BoolValue(flag: bool) | NumberValue(number: int) | InfoValue(info: Certs.CertificateInfo)

  datatype Body = Fields(fields: map<string, Value>) | Bytes(data: seq<Byte>) | NoBody

  datatype Response = Response(status: nat, headers: seq<(string, string)>, body: Body)

  /** The signing request DTO. A fresh one has null strings (`None`) and the DTO's own
      defaults; the signature position and size are not modelled. */
  datatype SignatureRequest = SignatureRequest(
    signerName: Option<string>,
    signerId: Option<string>,
    location: Option<string>,
    reason: Option<string>,
    certificateData: Option<seq<Byte>>,
    certificatePassword: Option<string>,
    signaturePage: int,
    enableTimestamp: bool,
    timestampServerUrl: string)

  /** `new SignatureRequest()`. */
  const FRESH_REQUEST: SignatureRequest :=
    SignatureRequest(None, None, None, None, None, None, 1, false, "http://timestamp.digicert.com")

  /** The form of a signing call, after Spring's binding: an optional parameter is `None`
      when Spring falls back to its default value, which it does both for a missing
      parameter and for an empty one. */
  datatype SignForm = SignForm(
    file: Upload,
    signerName: string,
    signerId: string,
    location: string,
    reason: string,
    certificate: Upload,
    certificatePassword: string,
    signaturePage: Option<int>,
    enableTimestamp: Option<bool>,
    timestampServerUrl: Option<string>)

  /** The signature service the controller calls. */
  datatype SignatureBackend = SignatureBackend(
    signPdf: (seq<Byte>, SignatureRequest) -> Result<seq<Byte>, Option<string>>,
    validateCertificate: (seq<Byte>, string) -> Result<bool, Option<string>>,
    extractCertificateInfo: (seq<Byte>, string) -> Result<Certs.CertificateInfo, Option<string>>)

  // ---------------------------------------------------------------------
  // File name checks

  /** The last `|ext|` characters of `name` spell `ext` once ASCII letters are lowered. */
  predicate EndsWithIgnoringCase(name: string, ext: string) {
    |ext| <= |name| && ToLower(name[|name| - |ext|..]) == ext
  }

  lemma LowerSuffix(name: string, ext: string)
    ensures EndsWith(ToLower(name), ext) <==> EndsWithIgnoringCase(name, ext)
  {
    if |ext| <= |name| {
      assert ToLower(name)[|name| - |ext|..] == ToLower(name[|name| - |ext|..]);
    }
  }

  const CERTIFICATE_EXTENSIONS: seq<string> := [".p12", ".pfx", ".pkcs12"]

  /** `isCertificateFile`. */
  predicate IsCertificateFile(originalFilename: Option<string>) {
    match originalFilename
    case None => false
    case Some(name) =>
      var lowercaseFilename := ToLower(name);
      EndsWith(lowercaseFilename, ".p12") || EndsWith(lowercaseFilename, ".pfx") || EndsWith(lowercaseFilename, ".pkcs12")
  }

  /** A certificate file is one with a name ending in .p12, .pfx or .pkcs12, in any mix of
      letter cases. */
  lemma CertificateFileByExtension(originalFilename: Option<string>)
    ensures IsCertificateFile(originalFilename) <==>
      originalFilename.Some? && exists k :: 0 <= k < 3 && EndsWithIgnoringCase(originalFilename.value, CERTIFICATE_EXTENSIONS[k])
  {
    if originalFilename.Some? {
      var name := originalFilename.value;
      LowerSuffix(name, ".p12");
      LowerSuffix(name, ".pfx");
      LowerSuffix(name, ".pkcs12");
      assert CERTIFICATE_EXTENSIONS[0] == ".p12";
      assert CERTIFICATE_EXTENSIONS[1] == ".pfx";
      assert CERTIFICATE_EXTENSIONS[2] == ".pkcs12";
    }
  }

  const PDF_CONTENT_TYPE: string := "application/pdf"

  /** `isPdfFile`. */
  predicate IsPdfFile(file: Upload) {
    (file.contentType.Some? && file.contentType.value == PDF_CONTENT_TYPE) ||
    (file.originalFilename.Some? && EndsWith(ToLower(file.originalFilename.value), ".pdf"))
  }

  /** A PDF is an upload declared as application/pdf or named *.pdf in any letter case. */
  lemma PdfFileByTypeOrName(file: Upload)
    ensures IsPdfFile(file) <==>
      file.contentType == Some(PDF_CONTENT_TYPE) ||
      (file.originalFilename.Some? && EndsWithIgnoringCase(file.originalFilename.value, ".pdf"))
  {
    if file.originalFilename.Some? {
      LowerSuffix(file.originalFilename.value, ".pdf");
    }
  }

  // ---------------------------------------------------------------------
  // Signed file name

  /** Where the pattern `(\.[^.]*)?$` matches in `name`: at a dot with no dot after it,
      the group taking the rest of the name, or as the empty match at the end. */
  predicate SuffixMatchAt(name: string, p: nat) {
    p == |name| || (p < |name| && name[p] == '.' && '.' !in name[p + 1..])
  }

  /** The leftmost match at or after `from`, as `replaceFirst` finds it. */
  function LeftmostSuffixMatch(name: string, from: nat): (p: nat)
    requires from <= |name|
    decreases |name| - from
    ensures from <= p <= |name| && SuffixMatchAt(name, p)
    ensures forall q :: from <= q < p ==> !SuffixMatchAt(name, q)
  {
    if SuffixMatchAt(name, from) then from else LeftmostSuffixMatch(name, from + 1)
  }

  const SIGNED_INFIX: string := "_signed"
  const DEFAULT_SIGNED_NAME: string := "signed_document.pdf"

  /** The download name of a signed document: `replaceFirst` puts "_signed" in front of
      the matched suffix (the group, or nothing for the empty match). */
  function SignedFilename(originalFilename: Option<string>): string {
    match originalFilename
    case None => DEFAULT_SIGNED_NAME
    case Some(name) =>
      var p := LeftmostSuffixMatch(name, 0);
      name[..p] + SIGNED_INFIX + name[p..]
  }

  /** The match is at the last dot, or at the end when the name has no dot. */
  lemma {:induction false} LeftmostMatchIsLastDot(name: string)
    ensures var p := LeftmostSuffixMatch(name, 0);
      (p == |name| <==> '.' !in name) &&
      (p < |name| ==> LastIndexOf(name, '.') == Some(p))
  {
    var p := LeftmostSuffixMatch(name, 0);
    match LastIndexOf(name, '.')
    case None =>
      assert p == |name|;
    case Some(d) =>
      assert '.' !in name[d + 1..];
      assert SuffixMatchAt(name, d);
      assert p <= d;
  }

  /** Inserting `infix` at `p` leaves the text around it intact. */
  lemma Insertion(name: string, p: nat, infix: string)
    requires p <= |name|
    ensures var s := name[..p] + infix + name[p..];
      |s| == |name| + |infix| && s[p..p + |infix|] == infix && s[..p] + s[p + |infix|..] == name
  {
    var s := name[..p] + infix + name[p..];
    assert s[..p] == name[..p];
    assert s[p + |infix|..] == name[p..];
    assert name[..p] + name[p..] == name;
  }

  /** "_signed" goes in front of the last "."-extension, or at the end when there is no
      dot; taking it out again gives back the original name. A null name gives
      "signed_document.pdf". */
  lemma SignedFilenameShape(name: string)
    ensures var signed := SignedFilename(Some(name));
      var p := LeftmostSuffixMatch(name, 0);
      |signed| == |name| + |SIGNED_INFIX| &&
      signed[p..p + |SIGNED_INFIX|] == SIGNED_INFIX &&
      signed[..p] + signed[p + |SIGNED_INFIX|..] == name &&
      ('.' !in name ==> signed == name + SIGNED_INFIX) &&
      ('.' in name ==> LastIndexOf(name, '.') == Some(p) && '.' !in name[p + 1..])
    ensures SignedFilename(None) == DEFAULT_SIGNED_NAME
  {
    LeftmostMatchIsLastDot(name);
    var p := LeftmostSuffixMatch(name, 0);
    Insertion(name, p, SIGNED_INFIX);
    if '.' !in name {
      assert name[..p] == name;
      assert name[p..] == [];
      assert name[..p] + SIGNED_INFIX + name[p..] == name + SIGNED_INFIX;
    }
  }

  // ---------------------------------------------------------------------
  // Signing

  const FILE_REQUIRED: string := "File is required"
  const CERTIFICATE_REQUIRED: string := "Certificate file is required"
  const SIGN_ERROR_PREFIX: string := "Failed to sign document: "
  const DEFAULT_TSA_URL: string := "https://freetsa.org/tsr"

  function ErrorResponse(status: nat, message: string): Response {
    Response(status, [], Fields(map["error" := StringValue(message)]))
  }

  /** The request the controller builds from the form, its defaults applied. */
  function RequestOf(form: SignForm): SignatureRequest {
    FRESH_REQUEST.(
      signerName := Some(form.signerName),
      signerId := Some(form.signerId),
      location := Some(form.location),
      reason := Some(form.reason),
      certificateData := Some(form.certificate.bytes),
      certificatePassword := Some(form.certificatePassword),
      signaturePage := form.signaturePage.GetOr(1),
      enableTimestamp := form.enableTimestamp.GetOr(false),
      timestampServerUrl := form.timestampServerUrl.GetOr(DEFAULT_TSA_URL))
  }

  function SignedHeaders(filename: string): seq<(string, string)> {
    [("Content-Disposition", "attachment; filename=\"" + filename + "\""), ("Content-Type", PDF_CONTENT_TYPE)]
  }

  /** What `signDocument` answers. */
  function SignResponse(form: SignForm, service: SignatureBackend): Response {
    if form.file.bytes == [] then ErrorResponse(400, FILE_REQUIRED)
    else if form.certificate.bytes == [] then ErrorResponse(400, CERTIFICATE_REQUIRED)
    else
      match service.signPdf(form.file.bytes, RequestOf(form))
      case Failure(message) => ErrorResponse(500, SIGN_ERROR_PREFIX + MessageText(message))
      case Success(signedPdf) =>
        Response(200, SignedHeaders(SignedFilename(form.file.originalFilename)), Bytes(signedPdf))
  }

  /** The document is checked before the certificate, each with its own 400 answer, and
      neither refusal consults the service. Otherwise the service gets the form's values
      with the defaults filled in; its PDF comes back under the signed file name, and its
      failure becomes a 500 answer. */
  lemma SignResponseCases(form: SignForm, service: SignatureBackend, other: SignatureBackend)
    ensures form.file.bytes == [] ==>
      SignResponse(form, service) == ErrorResponse(400, FILE_REQUIRED)
    ensures form.file.bytes != [] && form.certificate.bytes == [] ==>
      SignResponse(form, service) == ErrorResponse(400, CERTIFICATE_REQUIRED)
    ensures form.file.bytes == [] || form.certificate.bytes == [] ==>
      SignResponse(form, service) == SignResponse(form, other)
    ensures var r := SignResponse(form, service);
      form.file.bytes != [] && form.certificate.bytes != [] ==>
        var request := RequestOf(form);
        request.certificateData == Some(form.certificate.bytes) &&
        request.timestampServerUrl == form.timestampServerUrl.GetOr(DEFAULT_TSA_URL) &&
        match service.signPdf(form.file.bytes, request)
        case Success(pdf) =>
          r.status == 200 && r.body == Bytes(pdf) &&
          r.headers[0].1 == "attachment; filename=\"" + SignedFilename(form.file.originalFilename) + "\""
        case Failure(message) =>
          r.status == 500 && r.body.Fields? && r.body.fields["error"] == StringValue(SIGN_ERROR_PREFIX + MessageText(message))
  {
  }

  // ---------------------------------------------------------------------
  // Certificate endpoints

  const NOT_A_CERTIFICATE: string := "El archivo debe ser un certificado .p12 o .pfx"
  const CERTIFICATE_VALID: string := "Certificado válido"
  const CERTIFICATE_INVALID: string := "Certificado inválido o contraseña incorrecta"
  const VALIDATE_ERROR_PREFIX: string := "Error al validar el certificado: "
  const INFO_EXTRACTED: string := "Información del certificado extraída exitosamente"

  /** What `validateCertificate` answers. */
  function ValidationResponse(certificate: Upload, password: string, service: SignatureBackend): Response {
    if !IsCertificateFile(certificate.originalFilename) then
      Response(400, [], Fields(map["valid" := BoolValue(false), "message" := StringValue(NOT_A_CERTIFICATE)]))
    else
      match service.validateCertificate(certificate.bytes, password)
      case Failure(message) =>
        Response(500, [], Fields(map["valid" := BoolValue(false), "message" := StringValue(VALIDATE_ERROR_PREFIX + MessageText(message))]))
      case Success(isValid) =>
        Response(200, [], Fields(map["valid" := BoolValue(isValid),
          "message" := StringValue(if isValid then CERTIFICATE_VALID else CERTIFICATE_INVALID)]))
  }

  /** What `getCertificateInfo` answers. */
  function InfoResponse(certificate: Upload, password: string, service: SignatureBackend): Response {
    if !IsCertificateFile(certificate.originalFilename) then
      Response(400, [], Fields(map["success" := BoolValue(false), "message" := StringValue(NOT_A_CERTIFICATE)]))
    else
      match service.extractCertificateInfo(certificate.bytes, password)
      case Failure(message) =>
        Response(500, [], Fields(map["success" := BoolValue(false), "message" := StringValue(Certs.INFO_ERROR_PREFIX + MessageText(message))]))
      case Success(certInfo) =>
        Response(200, [], Fields(map["success" := BoolValue(true), "certificateInfo" := InfoValue(certInfo),
          "message" := StringValue(INFO_EXTRACTED)]))
  }

  /** A file not named as a certificate gets 400 whatever the service would say; a
      certificate file gets the service's verdict (200) or its failure (500), with
      "valid" true only when the service said so. */
  lemma ValidationCases(certificate: Upload, password: string, service: SignatureBackend, other: SignatureBackend)
    ensures var r := ValidationResponse(certificate, password, service);
      (!IsCertificateFile(certificate.originalFilename) ==>
        r.status == 400 && r == ValidationResponse(certificate, password, other)) &&
      (IsCertificateFile(certificate.originalFilename) ==>
        r.status == (if service.validateCertificate(certificate.bytes, password).Success? then 200 else 500)) &&
      r.body.Fields? && "valid" in r.body.fields &&
      (r.body.fields["valid"] == BoolValue(true) <==>
        IsCertificateFile(certificate.originalFilename) &&
        service.validateCertificate(certificate.bytes, password) == Success(true))
  {
  }

  /** The same gate for the certificate-info endpoint: the info is in the answer exactly
      when the file is named as a certificate and the service extracted it. */
  lemma InfoCases(certificate: Upload, password: string, service: SignatureBackend, other: SignatureBackend)
    ensures var r := InfoResponse(certificate, password, service);
      (!IsCertificateFile(certificate.originalFilename) ==>
        r.status == 400 && r == InfoResponse(certificate, password, other)) &&
      r.body.Fields? &&
      (forall info :: "certificateInfo" in r.body.fields && r.body.fields["certificateInfo"] == InfoValue(info) <==>
        IsCertificateFile(certificate.originalFilename) &&
        service.extractCertificateInfo(certificate.bytes, password) == Success(info)) &&
      (r.status == 200 <==> "certificateInfo" in r.body.fields)
  {
  }

  // ---------------------------------------------------------------------
  // Download

  /** The Content-Disposition header Spring writes for form data. */
  function FormDataDisposition(name: string, filename: string): string {
    "form-data; name=\"" + name + "\"; filename=\"" + filename + "\""
  }

  /** What `downloadDocument` answers for the table `table`. */
  function DownloadResponse(table: Storage.Table, documentId: string): Response {
    match Storage.Lookup(table, documentId)
    case None => Response(404, [], NoBody)
    case Some(document) =>
      Response(200, [("Content-Type", PDF_CONTENT_TYPE),
                     ("Content-Disposition", FormDataDisposition("attachment", document.filename)),
                     ("Content-Length", NatToDecimal(|document.data|))], Bytes(document.data))
  }

  /** A stored document downloads with its bytes until it is removed; then the answer is
      404. */
  lemma DownloadAfterStore(table: Storage.Table, documentId: string, document: Storage.StoredDocument)
    ensures DownloadResponse(Storage.Put(table, documentId, document), documentId).status == 200
    ensures DownloadResponse(Storage.Put(table, documentId, document), documentId).body == Bytes(document.data)
    ensures DownloadResponse(Storage.Remove(table, documentId), documentId) == Response(404, [], NoBody)
  {
    Storage.LookupAfterPut(table, documentId, document, documentId);
    Storage.LookupAfterRemove(table, documentId, documentId);
  }

  // ---------------------------------------------------------------------
  // The controller

  const HEALTH_MESSAGE: string := "Firmador Backend is running"

  class DigitalSignatureController {
    const digitalSignatureService: SignatureBackend
    const documentStorageService: Storage.DocumentStorageService

    constructor(digitalSignatureService: SignatureBackend, documentStorageService: Storage.DocumentStorageService)
      ensures this.digitalSignatureService == digitalSignatureService
      ensures this.documentStorageService == documentStorageService
    {
      this.digitalSignatureService := digitalSignatureService;
      this.documentStorageService := documentStorageService;
    }

    /** `signDocument`: the two checks, the request filled in field by field, the service
        call and the answer. */
    method SignDocument(form: SignForm) returns (response: Response)
      ensures response == SignResponse(form, digitalSignatureService)
    {
      if form.file.bytes == [] {
        return ErrorResponse(400, FILE_REQUIRED);
      }
      if form.certificate.bytes == [] {
        return ErrorResponse(400, CERTIFICATE_REQUIRED);
      }
      var request := FRESH_REQUEST;
      request := request.(signerName := Some(form.signerName));
      request := request.(signerId := Some(form.signerId));
      request := request.(location := Some(form.location));
      request := request.(reason := Some(form.reason));
      request := request.(certificateData := Some(form.certificate.bytes));
      request := request.(certificatePassword := Some(form.certificatePassword));
      request := request.(signaturePage := form.signaturePage.GetOr(1));
      request := request.(enableTimestamp := form.enableTimestamp.GetOr(false));
      request := request.(timestampServerUrl := form.timestampServerUrl.GetOr(DEFAULT_TSA_URL));
      var signed := digitalSignatureService.signPdf(form.file.bytes, request);
      if signed.Failure? {
        return ErrorResponse(500, SIGN_ERROR_PREFIX + MessageText(signed.error));
      }
      var signedFilename := SignedFilename(form.file.originalFilename);
      response := Response(200, SignedHeaders(signedFilename), Bytes(signed.value));
    }

    /** `validateCertificate`: fills the response map entry by entry. */
    method ValidateCertificate(certificate: Upload, password: string) returns (response: Response)
      ensures response == ValidationResponse(certificate, password, digitalSignatureService)
    {
      var fields: map<string, Value> := map[];
      if !IsCertificateFile(certificate.originalFilename) {
        fields := fields["valid" := BoolValue(false)];
        fields := fields["message" := StringValue(NOT_A_CERTIFICATE)];
        return Response(400, [], Fields(fields));
      }
      var answer := digitalSignatureService.validateCertificate(certificate.bytes, password);
      if answer.Failure? {
        fields := fields["valid" := BoolValue(false)];
        fields := fields["message" := StringValue(VALIDATE_ERROR_PREFIX + MessageText(answer.error))];
        return Response(500, [], Fields(fields));
      }
      var isValid := answer.value;
      fields := fields["valid" := BoolValue(isValid)];
      fields := fields["message" := StringValue(if isValid then CERTIFICATE_VALID else CERTIFICATE_INVALID)];
      response := Response(200, [], Fields(fields));
    }

    /** `getCertificateInfo`: fills the response map entry by entry. */
    method GetCertificateInfo(certificate: Upload, password: string) returns (response: Response)
      ensures response == InfoResponse(certificate, password, digitalSignatureService)
    {
      var fields: map<string, Value> := map[];
      if !IsCertificateFile(certificate.originalFilename) {
        fields := fields["success" := BoolValue(false)];
        fields := fields["message" := StringValue(NOT_A_CERTIFICATE)];
        return Response(400, [], Fields(fields));
      }
      var answer := digitalSignatureService.extractCertificateInfo(certificate.bytes, password);
      if answer.Failure? {
        fields := fields["success" := BoolValue(false)];
        fields := fields["message" := StringValue(Certs.INFO_ERROR_PREFIX + MessageText(answer.error))];
        return Response(500, [], Fields(fields));
      }
      fields := fields["success" := BoolValue(true)];
      fields := fields["certificateInfo" := InfoValue(answer.value)];
      fields := fields["message" := StringValue(INFO_EXTRACTED)];
      response := Response(200, [], Fields(fields));
    }

    /** `healthCheck`; `now` is the clock reading. */
    method HealthCheck(now: int) returns (response: Response)
      ensures response.status == 200 && response.body.Fields?
      ensures response.body.fields.Keys == {"status", "message", "timestamp"}
      ensures response.body.fields["status"] == StringValue("OK")
      ensures response.body.fields["message"] == StringValue(HEALTH_MESSAGE)
      ensures response.body.fields["timestamp"] == NumberValue(now)
    {
      var fields: map<string, Value> := map[];
      fields := fields["status" := StringValue("OK")];
      fields := fields["message" := StringValue(HEALTH_MESSAGE)];
      fields := fields["timestamp" := NumberValue(now)];
      response := Response(200, [], Fields(fields));
    }

    /** `downloadDocument`: reads the store, changes nothing. */
    method DownloadDocument(documentId: string) returns (response: Response)
      ensures response == DownloadResponse(documentStorageService.documentStorage, documentId)
    {
      var document := documentStorageService.GetDocument(documentId);
      if document.None? {
        return Response(404, [], NoBody);
      }
      var data := document.value.data;
      response := Response(200, [("Content-Type", PDF_CONTENT_TYPE),
                                 ("Content-Disposition", FormDataDisposition("attachment", document.value.filename)),
                                 ("Content-Length", NatToDecimal(|data|))], Bytes(data));
    }
  }
}
