/**
  The backend's certificate service: it turns a parsed X.509 certificate into the
  `CertificateInfo` the REST API returns. It picks the common name out of the subject,
  names the key usages and extended key usages (section 4.2.1.12 of RFC 5280 lists the
  id-kp purposes), renders the issuer name and checks the validity window.

  The service keeps no state, so the looping routines are plain methods, each proved
  against the function that specifies it.
 */
module CertificateService {
  import opened Wrappers
  import opened Text

  /** The certificate fields the service reads. Times are milliseconds since the epoch.
      `keyUsage` is `None` when the extension is absent. `extendedKeyUsage` is `None` when
      it is absent or `getExtendedKeyUsage` throws. */
  datatype X509Certificate = X509Certificate(
    subjectName: string,
    issuerName: string,
    notBefore: int,
    notAfter: int,
    serialNumber: int,
    keyUsage: Option<seq<bool>>,
    extendedKeyUsage: Option<seq<string>>,
    sigAlgName: string,
    version: int)

  /** The DTO returned to clients; the two dates are local date-times. */
  datatype CertificateInfo = CertificateInfo(
    subject: string,
    issuer: string,
    validFrom: int,
    validTo: int,
    serialNumber: string,
    commonName: string,
    keyUsages: seq<string>,
    trusted: bool,
    algorithm: string,
    version: string)

  // ---------------------------------------------------------------------
  // Common name

  const CN_PREFIX: string := "CN="

  /** The part trimmed the way `String.trim` does. */
  function Trimmed(part: string): string {
    Trim(part, JavaTrimmable)
  }

  /** The parts trimmed one by one. */
  function TrimAll(parts: seq<string>): (r: seq<string>)
    ensures |r| == |parts|
  {
    if parts == [] then [] else TrimAll(parts[..|parts| - 1]) + [Trimmed(parts[|parts| - 1])]
  }

  lemma {:induction false} TrimAllAt(parts: seq<string>, k: nat)
    requires k < |parts|
    ensures TrimAll(parts)[k] == Trimmed(parts[k])
  {
    if k < |parts| - 1 {
      TrimAllAt(parts[..|parts| - 1], k);
    }
  }

  /** The first trimmed part at or after `from` that starts with "CN=". */
  function FirstCnPart(trimmed: seq<string>, from: nat): (r: Option<nat>)
    requires from <= |trimmed|
    decreases |trimmed| - from
    ensures r.Some? ==> from <= r.value < |trimmed| && StartsWith(trimmed[r.value], CN_PREFIX)
    ensures r.Some? ==> forall k :: from <= k < r.value ==> !StartsWith(trimmed[k], CN_PREFIX)
    ensures r.None? ==> forall k :: from <= k < |trimmed| ==> !StartsWith(trimmed[k], CN_PREFIX)
  {
    if from == |trimmed| then None
    else if StartsWith(trimmed[from], CN_PREFIX) then Some(from)
    else FirstCnPart(trimmed, from + 1)
  }

  /** What `extractCommonName` returns for the RFC 2253 name `dn`. */
  function CommonNameOf(dn: string): string {
    var trimmed := TrimAll(JavaSplit(dn, ','));
    match FirstCnPart(trimmed, 0)
    case Some(k) => trimmed[k][3..]
    case None => dn
  }

  /** The name is split on ","; the first part that starts with "CN=" once trimmed gives
      the text after "CN=". */
  lemma CommonNameFromFirstCn(dn: string, k: nat)
    requires var trimmed := TrimAll(JavaSplit(dn, ','));
      k < |trimmed| && StartsWith(trimmed[k], CN_PREFIX) &&
      forall j :: 0 <= j < k ==> !StartsWith(trimmed[j], CN_PREFIX)
    ensures TrimAll(JavaSplit(dn, ','))[k] == CN_PREFIX + CommonNameOf(dn)
  {
    var trimmed := TrimAll(JavaSplit(dn, ','));
    var t := trimmed[k];
    assert FirstCnPart(trimmed, 0) == Some(k);
    assert t == t[..3] + t[3..];
  }

  /** When no part starts with "CN=", the whole name is returned. */
  lemma CommonNameWithoutCn(dn: string)
    requires var trimmed := TrimAll(JavaSplit(dn, ','));
      forall k :: 0 <= k < |trimmed| ==> !StartsWith(trimmed[k], CN_PREFIX)
    ensures CommonNameOf(dn) == dn
  {
    assert FirstCnPart(TrimAll(JavaSplit(dn, ',')), 0).None?;
  }

  /** The first piece of a split ends at the first separator. */
  lemma {:induction false} SplitAllFirstPiece(a: string, b: string, sep: char)
    requires sep !in a
    requires b == [] || b[0] == sep
    ensures SplitAll(a + b, sep)[0] == a
  {
    if a != [] {
      assert (a + b)[1..] == a[1..] + b;
      SplitAllFirstPiece(a[1..], b, sep);
      assert [a[0]] + a[1..] == a;
    }
  }

  /** A part that starts and ends with characters `trim` keeps is left as it is. */
  lemma TrimmedUnchanged(s: string)
    requires s != [] && !JavaTrimmable(s[0]) && !JavaTrimmable(s[|s| - 1])
    ensures Trimmed(s) == s
  {
    assert TrimRight(s, JavaTrimmable) == s;
  }

  /** The first piece of Java's split, when it is not empty. */
  lemma JavaSplitFirstPiece(a: string, b: string, sep: char)
    requires a != [] && sep !in a
    requires b == [] || b[0] == sep
    ensures JavaSplit(a + b, sep) != [] && JavaSplit(a + b, sep)[0] == a
  {
    SplitAllFirstPiece(a, b, sep);
  }

  /** A name that begins with "CN=v" gives back `v`, when `v` holds no comma and does not
      end in a character `trim` removes. */
  lemma CommonNameOfLeadingCn(v: string, rest: string)
    requires ',' !in v
    requires v == [] || !JavaTrimmable(v[|v| - 1])
    requires rest == [] || rest[0] == ','
    ensures CommonNameOf(CN_PREFIX + v + rest) == v
  {
    var first := CN_PREFIX + v;
    JavaSplitFirstPiece(first, rest, ',');
    var parts := JavaSplit(first + rest, ',');
    TrimmedUnchanged(first);
    TrimAllAt(parts, 0);
    var trimmed := TrimAll(parts);
    assert StartsWith(trimmed[0], CN_PREFIX);
    assert FirstCnPart(trimmed, 0) == Some(0);
    assert first[3..] == v;
  }

  /** `extractCommonName`: scans the parts in order. */
  method ExtractCommonName(dn: string) returns (cn: string)
    ensures cn == CommonNameOf(dn)
  {
    var parts := JavaSplit(dn, ',');
    ghost var trimmedParts := TrimAll(parts);
    var i := 0;
    while i < |parts|
      invariant 0 <= i <= |parts|
      invariant FirstCnPart(trimmedParts, 0) == FirstCnPart(trimmedParts, i)
    {
      var trimmed := Trimmed(parts[i]);
      TrimAllAt(parts, i);
      if StartsWith(trimmed, CN_PREFIX) {
        return trimmed[3..];
      }
      i := i + 1;
    }
    return dn;
  }

  // ---------------------------------------------------------------------
  // Key usages

  /** The names given to the nine key-usage bits, in bit order. */
  const BASIC_USAGE_NAMES: seq<string> := [
    "Digital Signature",
    "Non-Repudiation",
    "Key Encipherment",
    "Data Encipherment",
    "Key Agreement",
    "Key Certificate Signing",
    "CRL Signing",
    "Encipher Only",
    "Decipher Only"
  ]

  /** What is listed when the certificate names no usage at all. */
  const DEFAULT_USAGES: seq<string> := ["Digital Signature", "Non-Repudiation"]

  function Min(a: nat, b: nat): nat {
    if a <= b then a else b
  }

  /** The named basic usages: bits at indices below both the array length and nine. */
  function BasicUsages(keyUsage: Option<seq<bool>>): (names: seq<string>)
    ensures keyUsage.None? ==> names == []
  {
    match keyUsage
    case None => []
    case Some(bits) => Selected(bits, BASIC_USAGE_NAMES, Min(|bits|, 9))
  }

  const SERVER_AUTH: string := "1.3.6.1.5.5.7.3.1"
  const CLIENT_AUTH: string := "1.3.6.1.5.5.7.3.2"
  const CODE_SIGNING: string := "1.3.6.1.5.5.7.3.3"
  const EMAIL_PROTECTION: string := "1.3.6.1.5.5.7.3.4"
  const TIME_STAMPING: string := "1.3.6.1.5.5.7.3.8"
  const OCSP_SIGNING: string := "1.3.6.1.5.5.7.3.9"

  /** The id-kp purpose OIDs the service knows and their names. */
  const KNOWN_PURPOSES: seq<string> := [SERVER_AUTH, CLIENT_AUTH, CODE_SIGNING, EMAIL_PROTECTION, TIME_STAMPING, OCSP_SIGNING]
  const PURPOSE_NAMES: seq<string> := [
    "Server Authentication",
    "Client Authentication",
    "Code Signing",
    "Email Protection",
    "Time Stamping",
    "OCSP Signing"
  ]

  const UNKNOWN_PREFIX: string := "Unknown Usage ("

  /** `mapExtendedKeyUsage`. */
  function MapExtendedKeyUsage(oid: string): string {
    if oid == SERVER_AUTH then "Server Authentication"
    else if oid == CLIENT_AUTH then "Client Authentication"
    else if oid == CODE_SIGNING then "Code Signing"
    else if oid == EMAIL_PROTECTION then "Email Protection"
    else if oid == TIME_STAMPING then "Time Stamping"
    else if oid == OCSP_SIGNING then "OCSP Signing"
    else UNKNOWN_PREFIX + oid + ")"
  }

  /** Each known OID gets the name at its position in the table; any other OID is shown
      inside "Unknown Usage (...)". */
  lemma ExtendedUsageNames(oid: string)
    ensures forall k :: 0 <= k < 6 && oid == KNOWN_PURPOSES[k] ==> MapExtendedKeyUsage(oid) == PURPOSE_NAMES[k]
    ensures oid !in KNOWN_PURPOSES ==> MapExtendedKeyUsage(oid) == UNKNOWN_PREFIX + oid + ")"
  {
  }

  /** Reads the OID back from a displayed name; `None` for a text no OID is shown as. */
  function OidOfUsageName(name: string): Option<string> {
    if name == "Server Authentication" then Some(SERVER_AUTH)
    else if name == "Client Authentication" then Some(CLIENT_AUTH)
    else if name == "Code Signing" then Some(CODE_SIGNING)
    else if name == "Email Protection" then Some(EMAIL_PROTECTION)
    else if name == "Time Stamping" then Some(TIME_STAMPING)
    else if name == "OCSP Signing" then Some(OCSP_SIGNING)
    else if |name| > |UNKNOWN_PREFIX| && StartsWith(name, UNKNOWN_PREFIX) && name[|name| - 1] == ')' then
      Some(name[|UNKNOWN_PREFIX|..|name| - 1])
    else None
  }

  /** The six names differ from each other, so each reads back as its own OID. */
  lemma KnownUsageRoundTrip(oid: string)
    requires oid in KNOWN_PURPOSES
    ensures OidOfUsageName(MapExtendedKeyUsage(oid)) == Some(oid)
  {
  }

  /** An "Unknown Usage (...)" text starts with a letter none of the six names starts
      with, so the OID is read back from between the parentheses. */
  lemma UnknownUsageRoundTrip(oid: string)
    requires oid !in KNOWN_PURPOSES
    ensures OidOfUsageName(MapExtendedKeyUsage(oid)) == Some(oid)
  {
    var name := UNKNOWN_PREFIX + oid + ")";
    assert name[0] == 'U';
    assert name[..|UNKNOWN_PREFIX|] == UNKNOWN_PREFIX;
    assert name[|UNKNOWN_PREFIX|..|name| - 1] == oid;
  }

  /** Every OID can be read back from the name it is shown under. */
  lemma ExtendedUsageRoundTrip(oid: string)
    ensures OidOfUsageName(MapExtendedKeyUsage(oid)) == Some(oid)
  {
    if oid in KNOWN_PURPOSES {
      KnownUsageRoundTrip(oid);
    } else {
      UnknownUsageRoundTrip(oid);
    }
  }

  /** Different OIDs are never shown under the same name. */
  lemma MapExtendedKeyUsageInjective(a: string, b: string)
    requires MapExtendedKeyUsage(a) == MapExtendedKeyUsage(b)
    ensures a == b
  {
    ExtendedUsageRoundTrip(a);
    ExtendedUsageRoundTrip(b);
  }

  /** The extended usages, mapped one by one in list order. */
  function ExtendedNames(oids: seq<string>): (names: seq<string>)
    ensures |names| == |oids|
    ensures forall i :: 0 <= i < |oids| ==> names[i] == MapExtendedKeyUsage(oids[i])
  {
    if oids == [] then [] else ExtendedNames(oids[..|oids| - 1]) + [MapExtendedKeyUsage(oids[|oids| - 1])]
  }

  function ExtendedUsages(extendedKeyUsage: Option<seq<string>>): seq<string> {
    match extendedKeyUsage
    case None => []
    case Some(oids) => ExtendedNames(oids)
  }

  /** What `extractKeyUsages` returns: the basic usages, then the extended ones, or the
      default pair when there are none. */
  function KeyUsagesOf(c: X509Certificate): (usages: seq<string>)
    ensures usages != []
  {
    var found := BasicUsages(c.keyUsage) + ExtendedUsages(c.extendedKeyUsage);
    if found == [] then DEFAULT_USAGES else found
  }

  lemma BasicUsageNamesDistinct()
    ensures forall i, j :: 0 <= i < j < 9 ==> BASIC_USAGE_NAMES[i] != BASIC_USAGE_NAMES[j]
  {
  }

  /** A basic usage is listed exactly when its bit is set (bits past the array count as
      unset); the names come in bit order. */
  lemma BasicUsageNaming(bits: seq<bool>)
    ensures forall i :: 0 <= i < 9 ==>
      (BASIC_USAGE_NAMES[i] in BasicUsages(Some(bits)) <==> i < |bits| && bits[i])
    ensures var idx := FlaggedIndices(bits, Min(|bits|, 9));
      |BasicUsages(Some(bits))| == |idx| &&
      forall k :: 0 <= k < |idx| ==> BasicUsages(Some(bits))[k] == BASIC_USAGE_NAMES[idx[k]]
  {
    var n := Min(|bits|, 9);
    SelectedAtFlaggedIndices(bits, BASIC_USAGE_NAMES, n);
    BasicUsageNamesDistinct();
    forall i | 0 <= i < 9
      ensures BASIC_USAGE_NAMES[i] in BasicUsages(Some(bits)) <==> i < |bits| && bits[i]
    {
      SelectedHas(bits, BASIC_USAGE_NAMES, n, i);
    }
  }

  /** The list is the basic usages followed by the mapped extended usages, in list order;
      the default pair appears exactly when the certificate names nothing. */
  lemma KeyUsageLayout(c: X509Certificate)
    ensures var basic := BasicUsages(c.keyUsage);
      var extended := ExtendedUsages(c.extendedKeyUsage);
      var usages := KeyUsagesOf(c);
      (basic == [] && extended == [] ==> usages == DEFAULT_USAGES) &&
      (basic != [] || extended != [] ==>
        |usages| == |basic| + |extended| &&
        usages[..|basic|] == basic &&
        usages[|basic|..] == extended)
  {
    var basic := BasicUsages(c.keyUsage);
    var extended := ExtendedUsages(c.extendedKeyUsage);
    if basic != [] || extended != [] {
      assert (basic + extended)[..|basic|] == basic;
      assert (basic + extended)[|basic|..] == extended;
    }
  }

  /** `extractKeyUsages`: the bit loop, the extended-usage loop and the default. */
  method ExtractKeyUsages(c: X509Certificate) returns (keyUsages: seq<string>)
    ensures keyUsages == KeyUsagesOf(c)
  {
    keyUsages := [];
    if c.keyUsage.Some? {
      var bits := c.keyUsage.value;
      var names := BASIC_USAGE_NAMES;
      var i := 0;
      while i < |bits| && i < |names|
        invariant 0 <= i <= Min(|bits|, 9)
        invariant keyUsages == Selected(bits, names, i)
      {
        if bits[i] {
          keyUsages := keyUsages + [names[i]];
        }
        i := i + 1;
      }
    }
    var basic := keyUsages;
    assert basic == BasicUsages(c.keyUsage);
    if c.extendedKeyUsage.Some? {
      var oids := c.extendedKeyUsage.value;
      var j := 0;
      while j < |oids|
        invariant 0 <= j <= |oids|
        invariant keyUsages == basic + ExtendedNames(oids[..j])
      {
        assert oids[..j + 1][..j] == oids[..j];
        keyUsages := keyUsages + [MapExtendedKeyUsage(oids[j])];
        j := j + 1;
      }
      assert oids[..|oids|] == oids;
    }
    if keyUsages == [] {
      keyUsages := DEFAULT_USAGES;
    }
  }

  // ---------------------------------------------------------------------
  // Issuer name

  /** The attributes `formatIssuerName` keeps. */
  predicate KeptAttribute(t: string) {
    StartsWith(t, "CN=") || StartsWith(t, "O=") || StartsWith(t, "C=") ||
    StartsWith(t, "L=") || StartsWith(t, "ST=") || StartsWith(t, "OU=")
  }

  /** What the if-chain of `formatIssuerName` appends for one trimmed part. */
  function IssuerPart(t: string): string {
    if StartsWith(t, "CN=") then "CN=" + t[3..]
    else if StartsWith(t, "O=") then ", O=" + t[2..]
    else if StartsWith(t, "C=") then ", C=" + t[2..]
    else if StartsWith(t, "L=") then ", L=" + t[2..]
    else if StartsWith(t, "ST=") then ", ST=" + t[3..]
    else if StartsWith(t, "OU=") then ", OU=" + t[3..]
    else ""
  }

  /** A kept part is written as it stands: CN with no separator, the others after ", ";
      every other part is dropped. */
  lemma IssuerPartMeaning(t: string)
    ensures IssuerPart(t) == if StartsWith(t, "CN=") then t else if KeptAttribute(t) then ", " + t else ""
  {
    if StartsWith(t, "CN=") || StartsWith(t, "ST=") || StartsWith(t, "OU=") {
      assert t == t[..3] + t[3..];
    } else if KeptAttribute(t) {
      assert t == t[..2] + t[2..];
    }
  }

  /** The rendering of a list of parts, each trimmed, in order. */
  function IssuerText(parts: seq<string>): string {
    if parts == [] then "" else IssuerText(parts[..|parts| - 1]) + IssuerPart(Trimmed(parts[|parts| - 1]))
  }

  /** Parts are rendered independently, so the rendering of two runs of parts is the two
      renderings one after the other. */
  lemma {:induction false} IssuerTextAppend(p: seq<string>, q: seq<string>)
    ensures IssuerText(p + q) == IssuerText(p) + IssuerText(q)
  {
    if q != [] {
      var last := q[|q| - 1];
      assert (p + q)[..|p + q| - 1] == p + q[..|q| - 1];
      IssuerTextAppend(p, q[..|q| - 1]);
    } else {
      assert p + q == p;
    }
  }

  /** A name none of whose parts is kept renders as the empty string. */
  lemma {:induction false} IssuerTextDropsAll(parts: seq<string>)
    requires forall k :: 0 <= k < |parts| ==> !KeptAttribute(Trimmed(parts[k]))
    ensures IssuerText(parts) == ""
  {
    if parts != [] {
      IssuerTextDropsAll(parts[..|parts| - 1]);
    }
  }

  /** What `formatIssuerName` returns. */
  function FormattedIssuer(issuerDN: string): string {
    IssuerText(JavaSplit(issuerDN, ','))
  }

  /** `formatIssuerName`: appends each trimmed part's rendering to a builder, in order. */
  method FormatIssuerName(issuerDN: string) returns (formatted: string)
    ensures formatted == FormattedIssuer(issuerDN)
  {
    var parts := JavaSplit(issuerDN, ',');
    formatted := "";
    var i := 0;
    while i < |parts|
      invariant 0 <= i <= |parts|
      invariant formatted == IssuerText(parts[..i])
    {
      assert parts[..i + 1][..i] == parts[..i];
      var trimmed := Trimmed(parts[i]);
      formatted := formatted + IssuerPart(trimmed);
      i := i + 1;
    }
    assert parts[..|parts|] == parts;
  }

  // ---------------------------------------------------------------------
  // Validity

  /** The exceptions `checkValidity` throws. */
  datatype ValidityError = Expired | NotYetValid

  /** `X509Certificate.checkValidity` at time `now`, as OpenJDK writes it: the start of the
      window is tested before its end. */
  function CheckValidity(c: X509Certificate, now: int): Option<ValidityError> {
    if now < c.notBefore then Some(NotYetValid)
    else if now > c.notAfter then Some(Expired)
    else None
  }

  /** `isCertificateTrusted`: `checkValidity` did not throw. */
  predicate IsCertificateTrusted(c: X509Certificate, now: int) {
    CheckValidity(c, now).None?
  }

  /** Trusted exactly inside the validity window, both ends included. */
  lemma TrustedWithinWindow(c: X509Certificate, now: int)
    ensures IsCertificateTrusted(c, now) <==> c.notBefore <= now <= c.notAfter
    ensures now < c.notBefore ==> CheckValidity(c, now) == Some(NotYetValid)
    ensures c.notBefore <= c.notAfter && now > c.notAfter ==> CheckValidity(c, now) == Some(Expired)
  {
  }

  // ---------------------------------------------------------------------
  // Certificate info

  const INFO_ERROR_PREFIX: string := "Error al extraer información del certificado: "

  /** "v" followed by the version number. */
  function VersionText(version: int): (s: string)
    ensures |s| >= 2 && s[0] == 'v'
  {
    "v" + IntToDecimal(version)
  }

  /** The version can be read back from its text. */
  lemma VersionTextValue(version: nat)
    ensures DecimalValue(VersionText(version)[1..]) == version
  {
    assert VersionText(version)[1..] == NatToDecimal(version);
    DecimalRoundTrip(version);
  }

  /** What `extractCertificateInfo` returns. `principal` re-reads the subject as an
      `X500Principal`: its RFC 2253 name, or the message of the exception it throws.
      `toLocal` turns an instant into a local date-time; `now` is the current time. */
  function CertificateInfoOf(c: X509Certificate, principal: string -> Result<string, Option<string>>,
                             toLocal: int -> int, now: int): Result<CertificateInfo, string>
  {
    match principal(c.subjectName)
    case Failure(message) => Failure(INFO_ERROR_PREFIX + MessageText(message))
    case Success(name) =>
      Success(CertificateInfo(c.subjectName, c.issuerName, toLocal(c.notBefore), toLocal(c.notAfter),
        SerialUpperHex(c.serialNumber), CommonNameOf(name), KeyUsagesOf(c),
        IsCertificateTrusted(c, now), c.sigAlgName, VersionText(c.version)))
  }

  /** The info fails only when the subject cannot be re-read, with the wrapped message;
      otherwise it carries the trust verdict of the window, a serial that reads back as
      the serial number, and a non-empty usage list. */
  lemma CertificateInfoFacts(c: X509Certificate, principal: string -> Result<string, Option<string>>,
                             toLocal: int -> int, now: int)
    ensures var r := CertificateInfoOf(c, principal, toLocal, now);
      (r.Failure? <==> principal(c.subjectName).Failure?) &&
      (r.Failure? ==> StartsWith(r.error, INFO_ERROR_PREFIX)) &&
      (r.Success? ==>
        (r.value.trusted <==> c.notBefore <= now <= c.notAfter) &&
        (c.serialNumber >= 0 ==> HexNumeralValue(r.value.serialNumber) == c.serialNumber) &&
        r.value.keyUsages != [] &&
        r.value.subject == c.subjectName && r.value.issuer == c.issuerName)
  {
    var r := CertificateInfoOf(c, principal, toLocal, now);
    if r.Failure? {
      var m := MessageText(principal(c.subjectName).error);
      assert (INFO_ERROR_PREFIX + m)[..|INFO_ERROR_PREFIX|] == INFO_ERROR_PREFIX;
    }
    if c.serialNumber >= 0 {
      SerialUpperHexRoundTrip(c.serialNumber);
    }
  }

  /** `extractCertificateInfo`. */
  method ExtractCertificateInfo(c: X509Certificate, principal: string -> Result<string, Option<string>>,
                                toLocal: int -> int, now: int) returns (r: Result<CertificateInfo, string>)
    ensures r == CertificateInfoOf(c, principal, toLocal, now)
  {
    var subject := c.subjectName;
    var name := principal(c.subjectName);
    if name.Failure? {
      return Failure(INFO_ERROR_PREFIX + MessageText(name.error));
    }
    var commonName := ExtractCommonName(name.value);
    var issuer := c.issuerName;
    var validFrom := toLocal(c.notBefore);
    var validTo := toLocal(c.notAfter);
    var serialNumber := SerialUpperHex(c.serialNumber);
    var keyUsages := ExtractKeyUsages(c);
    var algorithm := c.sigAlgName;
    var version := VersionText(c.version);
    var isTrusted := IsCertificateTrusted(c, now);
    return Success(CertificateInfo(subject, issuer, validFrom, validTo, serialNumber, commonName,
      keyUsages, isTrusted, algorithm, version));
  }
}
