/** The Android certificate helper: the information shown for the certificate of a PKCS#12
    key store (key-usage names, validity flag, serial number, common name) and the wrapping
    of load failures. Opening the key store, parsing a distinguished name into attributes
    and formatting dates are oracles. */
module AndroidCertificateHelper {
  import opened Wrappers
  import opened Text

  /** One attribute of a parsed distinguished name. */
  datatype Attribute = Attribute(oid: string, value: string)

  /** What the X.500 name parser makes of a distinguished name: its attributes in order,
      or a parse failure. */
  datatype X500Parse = Parsed(attributes: seq<Attribute>) | Unparsable

  /** The fields of an X.509 certificate the helper reads; `keyUsage` is `None` when the
      extension is absent. Times are milliseconds since the epoch. */
  datatype X509Certificate = X509Certificate(
    subjectDN: string,
    issuerDN: string,
    notBefore: int,
    notAfter: int,
    serialNumber: int,
    keyUsage: Option<seq<bool>>,
    sigAlgName: string,
    version: int,
    publicKeyAlgorithm: string)

  /** The map `extractCertificateInfo` returns, one field per key. */
  datatype CertificateInfo = CertificateInfo(
    subject: string,
    issuer: string,
    validFrom: string,
    validTo: string,
    serialNumber: string,
    commonName: string,
    keyUsages: seq<string>,
    trusted: bool,
    algorithm: string,
    version: int,
    publicKeyAlgorithm: string)

  // ---------------------------------------------------------------------
  // Key usages

  /** The names of the nine key-usage bits, in bit order. */
  const KEY_USAGE_NAMES: seq<string> := [
    "Digital Signature", "Non Repudiation", "Key Encipherment", "Data Encipherment",
    "Key Agreement", "Certificate Sign", "CRL Sign", "Encipher Only", "Decipher Only"]

  /** The array is read at indices 0 to 8 without a length check. */
  predicate KeyUsageReadable(keyUsage: Option<seq<bool>>) {
    keyUsage.Some? ==> |keyUsage.value| >= 9
  }

  function KeyUsagesOf(keyUsage: Option<seq<bool>>): seq<string>
    requires KeyUsageReadable(keyUsage)
  {
    match keyUsage
    case None => []
    case Some(usage) => Selected(usage, KEY_USAGE_NAMES, 9)
  }

  lemma KeyUsageNamesDistinct()
    ensures forall i, j :: 0 <= i < j < 9 ==> KEY_USAGE_NAMES[i] != KEY_USAGE_NAMES[j]
  {
  }

  /** A bit's name is listed exactly when the bit is set; the names come in bit order;
      bits beyond the ninth play no part; without the extension nothing is listed (no
      default is added). */
  lemma KeyUsageNaming(usage: seq<bool>)
    requires |usage| >= 9
    ensures forall i :: 0 <= i < 9 ==> (KEY_USAGE_NAMES[i] in KeyUsagesOf(Some(usage)) <==> usage[i])
    ensures var idx := FlaggedIndices(usage, 9);
      |KeyUsagesOf(Some(usage))| == |idx| &&
      forall k :: 0 <= k < |idx| ==> KeyUsagesOf(Some(usage))[k] == KEY_USAGE_NAMES[idx[k]]
    ensures KeyUsagesOf(Some(usage)) == KeyUsagesOf(Some(usage[..9]))
    ensures KeyUsagesOf(None) == []
  {
    SelectedAtFlaggedIndices(usage, KEY_USAGE_NAMES, 9);
    KeyUsageNamesDistinct();
    forall i | 0 <= i < 9
      ensures KEY_USAGE_NAMES[i] in KeyUsagesOf(Some(usage)) <==> usage[i]
    {
      SelectedHas(usage, KEY_USAGE_NAMES, 9, i);
    }
    assert usage[..9][..9] == usage[..9];
    SelectedIgnoresLater(usage, KEY_USAGE_NAMES, 9, usage[..9]);
  }

  // ---------------------------------------------------------------------
  // Common name

  const CN_OID: string := "2.5.4.3"

  /** The value of the first attribute from index `i` on whose type is the CN OID. */
  function FirstCommonName(attributes: seq<Attribute>, i: nat): (r: Option<string>)
    requires i <= |attributes|
    ensures r.Some? <==> exists k :: i <= k < |attributes| && attributes[k].oid == CN_OID
    ensures r.Some? ==> exists k :: i <= k < |attributes| && attributes[k].oid == CN_OID &&
                          attributes[k].value == r.value && forall j :: i <= j < k ==> attributes[j].oid != CN_OID
    decreases |attributes| - i
  {
    if i == |attributes| then None
    else if attributes[i].oid == CN_OID then Some(attributes[i].value)
    else FirstCommonName(attributes, i + 1)
  }

  /** The first index from `from` on where `CN=` is followed by a character other than a
      comma: where the pattern `CN=([^,]+)` first matches. */
  function CnMatchFrom(dn: string, from: nat): (r: Option<nat>)
    ensures r.Some? ==> from <= r.value && r.value + 3 < |dn| && OccursAt(dn, "CN=", r.value) && dn[r.value + 3] != ','
    ensures forall i :: from <= i && i + 3 < |dn| && OccursAt(dn, "CN=", i) && dn[i + 3] != ',' ==>
              r.Some? && r.value <= i
    decreases |dn| - from
  {
    if from + 3 >= |dn| then None
    else if OccursAt(dn, "CN=", from) && dn[from + 3] != ',' then Some(from)
    else CnMatchFrom(dn, from + 1)
  }

  /** The index of the first comma at or after `i`, or the length when there is none. */
  function CommaFrom(s: string, i: nat): (j: nat)
    requires i <= |s|
    ensures i <= j <= |s|
    ensures j < |s| ==> s[j] == ','
    ensures forall k :: i <= k < j ==> s[k] != ','
    decreases |s| - i
  {
    if i == |s| || s[i] == ',' then i else CommaFrom(s, i + 1)
  }

  /** The regular-expression fallback: the first match's group, trimmed, or "Unknown". */
  function RegexCommonName(dn: string): string {
    match CnMatchFrom(dn, 0)
    case None => "Unknown"
    case Some(i) => Trim(dn[i + 3..CommaFrom(dn, i + 3)], KotlinWhitespace)
  }

  /** `substringAfter("CN=")`: the text after the first `CN=`, or all of it. */
  function SubstringAfterCn(dn: string): string {
    match FindFrom(dn, "CN=", 0)
    case None => dn
    case Some(p) => dn[p + 3..]
  }

  /** The last-resort fallback: after the first `CN=`, before the next comma, trimmed. */
  function SplitCommonName(dn: string): string {
    var after := SubstringAfterCn(dn);
    Trim(after[..CommaFrom(after, 0)], KotlinWhitespace)
  }

  /** `extractCommonName`. */
  function CommonNameOf(dn: string, parse: X500Parse): string {
    match parse
    case Unparsable => SplitCommonName(dn)
    case Parsed(attributes) =>
      match FirstCommonName(attributes, 0)
      case Some(cn) => cn
      case None => RegexCommonName(dn)
  }

  /** A parsed CN attribute wins: the first one's value is the common name. */
  lemma ParsedCommonName(dn: string, attributes: seq<Attribute>, k: nat)
    requires k < |attributes| && attributes[k].oid == CN_OID
    requires forall j :: 0 <= j < k ==> attributes[j].oid != CN_OID
    ensures CommonNameOf(dn, Parsed(attributes)) == attributes[k].value
  {
    var r := FirstCommonName(attributes, 0);
    var k' :| 0 <= k' < |attributes| && attributes[k'].oid == CN_OID &&
      attributes[k'].value == r.value && forall j :: 0 <= j < k' ==> attributes[j].oid != CN_OID;
    assert k' == k;
  }

  /** Without a CN attribute, the first `CN=` followed by a non-comma gives the text up
      to the next comma, trimmed; when there is no such `CN=` the name is "Unknown". */
  lemma RegexFallback(dn: string, attributes: seq<Attribute>)
    requires forall k :: 0 <= k < |attributes| ==> attributes[k].oid != CN_OID
    ensures (forall i :: 0 <= i && i + 3 < |dn| && OccursAt(dn, "CN=", i) ==> dn[i + 3] == ',') ==>
      CommonNameOf(dn, Parsed(attributes)) == "Unknown"
    ensures (exists i :: 0 <= i && i + 3 < |dn| && OccursAt(dn, "CN=", i) && dn[i + 3] != ',') ==>
      exists i, j :: IsCnGroup(dn, i, j) && CommonNameOf(dn, Parsed(attributes)) == Trim(dn[i..j], KotlinWhitespace) &&
        forall p :: 0 <= p < i - 3 && p + 3 < |dn| && OccursAt(dn, "CN=", p) ==> dn[p + 3] == ','
  {
    assert CommonNameOf(dn, Parsed(attributes)) == RegexCommonName(dn);
    match CnMatchFrom(dn, 0)
    case None =>
    case Some(i) =>
      var j := CommaFrom(dn, i + 3);
      assert IsCnGroup(dn, i + 3, j);
  }

  /** If the name does not parse, the common name is the text after the first `CN=` (or
      the whole name) up to the first comma, trimmed. */
  lemma SplitFallback(dn: string)
    ensures var after := SubstringAfterCn(dn);
      exists j :: 0 <= j <= |after| && ',' !in after[..j] && (j == |after| || after[j] == ',') &&
        CommonNameOf(dn, Unparsable) == Trim(after[..j], KotlinWhitespace)
  {
    var after := SubstringAfterCn(dn);
    var j := CommaFrom(after, 0);
    assert ',' !in after[..j] by {
      forall k | 0 <= k < j ensures after[..j][k] != ',' {
      }
    }
  }

  /** `dn[i..j]` is a group the pattern `CN=([^,]+)` captures: it follows `CN=`, is not
      empty, holds no comma and runs to a comma or the end. */
  predicate IsCnGroup(dn: string, i: int, j: int) {
    && 3 <= i < j <= |dn|
    && OccursAt(dn, "CN=", i - 3)
    && (forall k :: i <= k < j ==> dn[k] != ',')
    && (j == |dn| || dn[j] == ',')
  }

  // ---------------------------------------------------------------------
  // Certificate information

  /** `checkValidity(now)` succeeds: neither before `notBefore` nor after `notAfter`. */
  predicate WithinValidity(c: X509Certificate, now: int) {
    c.notBefore <= now <= c.notAfter
  }

  /** The information `extractCertificateInfo` returns for a certificate at time `now`. */
  function CertificateInfoOf(c: X509Certificate, now: int, parse: string -> X500Parse, formatDate: int -> string)
    : CertificateInfo
    requires KeyUsageReadable(c.keyUsage)
  {
    CertificateInfo(
      c.subjectDN, c.issuerDN, formatDate(c.notBefore), formatDate(c.notAfter), SerialUpperHex(c.serialNumber),
      CommonNameOf(c.subjectDN, parse(c.subjectDN)), KeyUsagesOf(c.keyUsage), WithinValidity(c, now),
      c.sigAlgName, c.version, c.publicKeyAlgorithm)
  }

  /** The flag is the validity window; the serial number reads back, as hexadecimal, as
      the certificate's own. */
  lemma CertificateInfoFacts(c: X509Certificate, now: int, parse: string -> X500Parse, formatDate: int -> string)
    requires KeyUsageReadable(c.keyUsage)
    ensures var info := CertificateInfoOf(c, now, parse, formatDate);
      && (info.trusted <==> c.notBefore <= now <= c.notAfter)
      && (c.serialNumber >= 0 ==> HexNumeralValue(info.serialNumber) == c.serialNumber)
      && (c.serialNumber < 0 ==> info.serialNumber[0] == '-')
  {
    if c.serialNumber >= 0 {
      SerialUpperHexRoundTrip(c.serialNumber);
    }
  }

  /** How opening the key store went: the first alias's certificate, or the message of
      the exception thrown (`None` for a null message). */
  type Loaded = Result<X509Certificate, Option<string>>

  const LOAD_ERROR_PREFIX: string := "Error loading certificate: "

  /** What `loadCertificateInfo` returns; `indexError` is the message of the exception a
      key-usage array shorter than nine entries raises. */
  function LoadOutcome(loaded: Loaded, now: int, parse: string -> X500Parse, formatDate: int -> string,
                       indexError: Option<string>): Result<CertificateInfo, string>
  {
    match loaded
    case Failure(message) => Failure(LOAD_ERROR_PREFIX + MessageText(message))
    case Success(c) =>
      if KeyUsageReadable(c.keyUsage) then Success(CertificateInfoOf(c, now, parse, formatDate))
      else Failure(LOAD_ERROR_PREFIX + MessageText(indexError))
  }

  /** Every failure carries the prefix, followed by the underlying message; a readable
      certificate always yields its information. */
  lemma LoadFailureWrapped(loaded: Loaded, now: int, parse: string -> X500Parse, formatDate: int -> string,
                           indexError: Option<string>)
    ensures var r := LoadOutcome(loaded, now, parse, formatDate, indexError);
      && (r.Failure? ==> StartsWith(r.error, LOAD_ERROR_PREFIX))
      && (loaded.Failure? ==> r == Failure(LOAD_ERROR_PREFIX + MessageText(loaded.error)))
      && (r.Success? <==> loaded.Success? && KeyUsageReadable(loaded.value.keyUsage))
  {
  }

  class CertificateHelper {
    constructor () {
    }

    /** Adds the name of each set key-usage bit, one test per bit. */
    static method CollectKeyUsages(keyUsage: Option<seq<bool>>) returns (keyUsages: seq<string>)
      requires KeyUsageReadable(keyUsage)
      ensures keyUsages == KeyUsagesOf(keyUsage)
    {
      keyUsages := [];
      if keyUsage.Some? {
        var usage := keyUsage.value;
        var names := KEY_USAGE_NAMES;
        if usage[0] { keyUsages := keyUsages + [names[0]]; }
        assert keyUsages == Selected(usage, names, 1);
        if usage[1] { keyUsages := keyUsages + [names[1]]; }
        assert keyUsages == Selected(usage, names, 2);
        if usage[2] { keyUsages := keyUsages + [names[2]]; }
        assert keyUsages == Selected(usage, names, 3);
        if usage[3] { keyUsages := keyUsages + [names[3]]; }
        assert keyUsages == Selected(usage, names, 4);
        if usage[4] { keyUsages := keyUsages + [names[4]]; }
        assert keyUsages == Selected(usage, names, 5);
        if usage[5] { keyUsages := keyUsages + [names[5]]; }
        assert keyUsages == Selected(usage, names, 6);
        if usage[6] { keyUsages := keyUsages + [names[6]]; }
        assert keyUsages == Selected(usage, names, 7);
        if usage[7] { keyUsages := keyUsages + [names[7]]; }
        assert keyUsages == Selected(usage, names, 8);
        if usage[8] { keyUsages := keyUsages + [names[8]]; }
        assert keyUsages == Selected(usage, names, 9);
      }
    }

    /** `extractCommonName`: the parsed attributes first, then the two text fallbacks. */
    static method ExtractCommonName(distinguishedName: string, parse: X500Parse) returns (cn: string)
      ensures cn == CommonNameOf(distinguishedName, parse)
    {
      if parse.Unparsable? {
        return SplitCommonName(distinguishedName);
      }
      var attributes := parse.attributes;
      var i := 0;
      while i < |attributes|
        invariant 0 <= i <= |attributes|
        invariant FirstCommonName(attributes, 0) == FirstCommonName(attributes, i)
      {
        if attributes[i].oid == CN_OID {
          return attributes[i].value;
        }
        i := i + 1;
      }
      return RegexCommonName(distinguishedName);
    }

    static method ExtractCertificateInfo(certificate: X509Certificate, now: int, parse: string -> X500Parse,
                                         formatDate: int -> string)
      returns (info: CertificateInfo)
      requires KeyUsageReadable(certificate.keyUsage)
      ensures info == CertificateInfoOf(certificate, now, parse, formatDate)
    {
      var commonName := ExtractCommonName(certificate.subjectDN, parse(certificate.subjectDN));
      var keyUsages := CollectKeyUsages(certificate.keyUsage);
      var isValid := certificate.notBefore <= now <= certificate.notAfter;
      info := CertificateInfo(
        certificate.subjectDN, certificate.issuerDN, formatDate(certificate.notBefore),
        formatDate(certificate.notAfter), SerialUpperHex(certificate.serialNumber), commonName, keyUsages,
        isValid, certificate.sigAlgName, certificate.version, certificate.publicKeyAlgorithm);
    }

    static method LoadCertificateInfo(loaded: Loaded, now: int, parse: string -> X500Parse,
                                      formatDate: int -> string, indexError: Option<string>)
      returns (r: Result<CertificateInfo, string>)
      ensures r == LoadOutcome(loaded, now, parse, formatDate, indexError)
    {
      if loaded.Failure? {
        return Failure(LOAD_ERROR_PREFIX + MessageText(loaded.error));
      }
      var certificate := loaded.value;
      if !KeyUsageReadable(certificate.keyUsage) {
        return Failure(LOAD_ERROR_PREFIX + MessageText(indexError));
      }
      var info := ExtractCertificateInfo(certificate, now, parse, formatDate);
      return Success(info);
    }
  }
}
