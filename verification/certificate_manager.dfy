/**
  The Windows credential manager: at most one loaded certificate together with
  the CryptoAPI provider handle of its private key, a key specification and a
  flag saying whether the manager owns (must release) that provider.

  The certificate stores, PKCS#12 import and key acquisition are oracles; what
  CryptoAPI would do to release a context or a provider is recorded in two ghost
  fields, so that `Cleanup` discipline can be stated.
 */
module CertificateManager {
  import opened Wrappers
  import opened Text

  /** The key-usage extension as `CertFindExtension`/`CryptDecodeObjectEx` see it. */
  datatype KeyUsageExtension = NoKeyUsage | Undecodable | KeyUsageBits(bits: seq<Byte>)

  /** What the model needs to know about one certificate context. `serialNumber` is the
      little-endian blob CryptoAPI stores; `sha1` is the SHA-1 hash property, absent
      when it cannot be read; validity bounds are FILETIME tick counts. */
  datatype Certificate = Certificate(
    displayName: string,
    serialNumber: seq<Byte>,
    notBefore: int,
    notAfter: int,
    keyUsage: KeyUsageExtension,
    sha1: Option<seq<Byte>>)

  /** The outcome of `CryptAcquireCertificatePrivateKey`. */
  datatype KeyAcquisition = KeyUnavailable | KeyAcquired(prov: nat, keySpec: nat, callerFree: bool)

  type KeyOracle = Certificate -> KeyAcquisition

  datatype CertificateInfo = CertificateInfo(
    subject: string,
    issuer: string,
    serialNumber: string,
    validFrom: string,
    validTo: string,
    keyUsage: seq<string>,
    thumbprint: string,
    isValid: bool)

  /** A value-initialised `CertificateInfo`. */
  function EmptyInfo(): CertificateInfo {
    CertificateInfo("", "", "", "", "", [], "", false)
  }

  // ---------------------------------------------------------------------
  // Manager state and Cleanup

  /** The four fields plus the ghost record of releases: how many certificate contexts
      were freed and which provider handles were released, in order. */
  datatype ManagerState = ManagerState(
    cert: Option<Certificate>,
    prov: nat,
    keySpec: nat,
    owned: bool,
    freed: nat,
    released: seq<nat>)

  /** The state `Cleanup` leaves. */
  function AfterCleanup(s: ManagerState): (t: ManagerState)
    ensures t.cert == None && t.keySpec == 0 && !t.owned
    ensures s.prov != 0 && s.owned ==> t.prov == 0 && t.released == s.released + [s.prov]
    ensures !(s.prov != 0 && s.owned) ==> t.prov == s.prov && t.released == s.released
    ensures t.freed == s.freed + (if s.cert.Some? then 1 else 0)
  {
    var freed := if s.cert.Some? then s.freed + 1 else s.freed;
    var releasing := s.prov != 0 && s.owned;
    ManagerState(None,
                 if releasing then 0 else s.prov,
                 0,
                 false,
                 freed,
                 if releasing then s.released + [s.prov] else s.released)
  }

  /** A second `Cleanup` changes nothing and releases nothing. */
  lemma CleanupIdempotent(s: ManagerState)
    ensures AfterCleanup(AfterCleanup(s)) == AfterCleanup(s)
  {
  }

  /** A provider the manager does not own survives `Cleanup` and is never released by it. */
  lemma UnownedProviderSurvives(s: ManagerState)
    requires !s.owned
    ensures AfterCleanup(s).prov == s.prov && AfterCleanup(s).released == s.released
  {
  }

  // ---------------------------------------------------------------------
  // Thumbprint decoding: `std::stoul(chunk, nullptr, 16)` per two characters

  /** The characters `isspace` accepts in the "C" locale. */
  predicate IsCSpace(c: char) {
    c == ' ' || c == '\t' || c == '\n' || c == '\U{B}' || c == '\U{C}' || c == '\r'
  }

  predicate IsHexDigit(c: char) {
    HexValue(c).Some?
  }

  /** `unsigned long` is 32 bits wide on Windows. */
  const ULONG_MAX: nat := 0xFFFF_FFFF

  /** The `what()` text of the `std::invalid_argument` that `stoul` throws: library-defined. */
  const STOUL_INVALID_MESSAGE: string := "invalid stoul argument"

  /** `std::stoul(chunk, nullptr, 16)` on a chunk of one or two characters: an optional
      leading white-space character or sign, then the longest run of hex digits. None
      where it throws because no digit follows; a minus sign negates modulo 2^32. A
      `0x` prefix needs a third character, so on a chunk "0x" only the 0 is read. */
  function StoulChunk(c: string): (r: Option<nat>)
    requires 1 <= |c| <= 2
    ensures r.Some? ==> r.value <= ULONG_MAX
  {
    var first := c[0];
    if IsHexDigit(first) then
      if |c| == 2 && IsHexDigit(c[1]) then Some(16 * HexValue(first).value + HexValue(c[1]).value)
      else Some(HexValue(first).value)
    else if |c| == 2 && IsHexDigit(c[1]) && (IsCSpace(first) || first == '+') then Some(HexValue(c[1]).value)
    else if |c| == 2 && IsHexDigit(c[1]) && first == '-' then Some((ULONG_MAX + 1 - HexValue(c[1]).value) % (ULONG_MAX + 1))
    else None
  }

  /** The chunk starting at `i`: `thumbprint.substr(i, 2)`. */
  function Chunk(thumbprint: string, i: nat): (c: string)
    requires i < |thumbprint|
    ensures 1 <= |c| <= 2
  {
    if i + 2 <= |thumbprint| then thumbprint[i..i + 2] else thumbprint[i..]
  }

  /** The bytes decoded from position `i` on, or None when some chunk makes `stoul` throw. */
  function ThumbprintBytesFrom(thumbprint: string, i: nat): Option<seq<Byte>>
    decreases |thumbprint| - i
  {
    if i >= |thumbprint| then Some([])
    else match (StoulChunk(Chunk(thumbprint, i)), ThumbprintBytesFrom(thumbprint, i + 2))
      case (Some(v), Some(rest)) => Some([v % 256] + rest)
      case _ => None
  }

  function ThumbprintBytes(thumbprint: string): Option<seq<Byte>> {
    ThumbprintBytesFrom(thumbprint, 0)
  }

  function Prepend(prefix: seq<Byte>, r: Option<seq<Byte>>): Option<seq<Byte>> {
    match r
    case None => None
    case Some(rest) => Some(prefix + rest)
  }

  lemma PrependNothing(r: Option<seq<Byte>>)
    ensures Prepend([], r) == r
  {
    if r.Some? {
      assert [] + r.value == r.value;
    }
  }

  lemma DecodeStep(thumbprint: string, i: nat, bytes: seq<Byte>)
    requires i < |thumbprint|
    ensures StoulChunk(Chunk(thumbprint, i)).None? ==> Prepend(bytes, ThumbprintBytesFrom(thumbprint, i)) == None
    ensures StoulChunk(Chunk(thumbprint, i)).Some? ==>
              Prepend(bytes, ThumbprintBytesFrom(thumbprint, i))
              == Prepend(bytes + [StoulChunk(Chunk(thumbprint, i)).value % 256], ThumbprintBytesFrom(thumbprint, i + 2))
  {
    var rest := ThumbprintBytesFrom(thumbprint, i + 2);
    if StoulChunk(Chunk(thumbprint, i)).Some? && rest.Some? {
      var b := StoulChunk(Chunk(thumbprint, i)).value % 256;
      assert bytes + ([b] + rest.value) == (bytes + [b]) + rest.value;
    }
  }

  lemma DecodeEnd(thumbprint: string, i: nat, bytes: seq<Byte>)
    requires i >= |thumbprint|
    ensures Prepend(bytes, ThumbprintBytesFrom(thumbprint, i)) == Some(bytes)
  {
    assert bytes + [] == bytes;
  }

  /** Two hex digits of either case read back as one byte. */
  lemma StoulPair(hi: char, lo: char)
    requires IsHexDigit(hi) && IsHexDigit(lo)
    ensures StoulChunk([hi, lo]).Some? && PairValue(hi, lo).Some?
    ensures StoulChunk([hi, lo]).value == PairValue(hi, lo).value
  {
  }

  /** On even-length text made of hex digits the per-chunk `stoul` agrees with reading
      two digits per byte. */
  lemma {:induction false} ThumbprintIsHexDecode(s: string, i: nat)
    requires i <= |s| && (|s| - i) % 2 == 0
    requires forall j :: i <= j < |s| ==> IsHexDigit(s[j])
    ensures ThumbprintBytesFrom(s, i) == DecodeHex(s[i..])
    decreases |s| - i
  {
    if i < |s| {
      ThumbprintIsHexDecode(s, i + 2);
      var hi, lo := s[i], s[i + 1];
      assert Chunk(s, i) == [hi, lo];
      StoulPair(hi, lo);
      var rest := ThumbprintBytesFrom(s, i + 2);
      assert s[i..][2..] == s[i + 2..];
      assert s[i..][0] == hi && s[i..][1] == lo;
      assert DecodeHex(s[i..]) == match (PairValue(hi, lo), rest)
        case (Some(b), Some(r)) => Some([b] + r)
        case _ => None;
    }
  }

  lemma HexLowerDigits(bs: seq<Byte>)
    ensures forall j :: 0 <= j < |HexLower(bs)| ==> IsHexDigit(HexLower(bs)[j])
  {
    forall j | 0 <= j < |HexLower(bs)| ensures IsHexDigit(HexLower(bs)[j]) {
      HexLowerIsLowerHex(bs, j);
    }
  }

  /** Decoding a thumbprint written by `CalculateThumbprint` gives back the hash bytes. */
  lemma ThumbprintRoundTrip(bs: seq<Byte>)
    ensures ThumbprintBytes(HexLower(bs)) == Some(bs)
  {
    HexLowerDigits(bs);
    ThumbprintIsHexDecode(HexLower(bs), 0);
    assert HexLower(bs)[0..] == HexLower(bs);
    DecodeHexLower(bs);
  }

  lemma {:induction false} DecodeHexUpper(s: string)
    requires forall j :: 0 <= j < |s| ==> IsLowerHexDigit(s[j])
    ensures DecodeHex(ToUpper(s)) == DecodeHex(s)
    decreases |s|
  {
    var u := ToUpper(s);
    if |s| >= 2 {
      assert u[2..] == ToUpper(s[2..]);
      DecodeHexUpper(s[2..]);
    }
  }

  /** Decoding is case-insensitive: the upper-case spelling of a thumbprint decodes to the
      same bytes. */
  lemma ThumbprintCaseInsensitive(bs: seq<Byte>)
    ensures ThumbprintBytes(ToUpper(HexLower(bs))) == Some(bs)
  {
    var s := HexLower(bs);
    var u := ToUpper(s);
    forall j | 0 <= j < |s| ensures IsLowerHexDigit(s[j]) {
      HexLowerIsLowerHex(bs, j);
    }
    ThumbprintIsHexDecode(u, 0);
    assert u[0..] == u;
    DecodeHexUpper(s);
    DecodeHexLower(bs);
  }

  /** The first certificate whose SHA-1 hash property equals `hash` (`CERT_FIND_SHA1_HASH`). */
  function FindBySha1(certs: seq<Certificate>, hash: seq<Byte>): (r: Option<Certificate>)
    ensures r.Some? ==> r.value in certs && r.value.sha1 == Some(hash)
    ensures r.Some? ==>
              exists i :: 0 <= i < |certs| && certs[i] == r.value &&
                          forall j :: 0 <= j < i ==> certs[j].sha1 != Some(hash)
    ensures r.None? ==> forall c :: c in certs ==> c.sha1 != Some(hash)
  {
    if certs == [] then None
    else if certs[0].sha1 == Some(hash) then Some(certs[0])
    else FindBySha1(certs[1..], hash)
  }

  // ---------------------------------------------------------------------
  // The loaders, on states

  /** Taking `c` as the loaded certificate and asking for its key. */
  function AcquireKey(s: ManagerState, c: Certificate, acquire: KeyOracle): (ManagerState, bool) {
    match acquire(c)
    case KeyUnavailable => (s.(cert := Some(c)), false)
    case KeyAcquired(prov, keySpec, callerFree) =>
      (s.(cert := Some(c), prov := prov, keySpec := keySpec, owned := callerFree), true)
  }

  /** `LoadCertificateFromStore` from an already cleaned-up state; `store` is None when the
      personal store cannot be opened. A chunk `stoul` rejects makes the call throw. */
  function StoreLoad(s: ManagerState, thumbprint: string, store: Option<seq<Certificate>>, acquire: KeyOracle)
    : (r: (ManagerState, Result<bool, string>))
    ensures r.1 == Success(true) ==> r.0.cert.Some? && ThumbprintBytes(thumbprint).Some?
                                     && r.0.cert.value.sha1 == ThumbprintBytes(thumbprint)
    ensures r.1 == Success(true) ==> acquire(r.0.cert.value).KeyAcquired? && r.0.prov == acquire(r.0.cert.value).prov
    ensures r.1.Failure? ==> r.1.error == STOUL_INVALID_MESSAGE && r.0 == s
    ensures r.0.freed == s.freed && r.0.released == s.released
  {
    match store
    case None => (s, Success(false))
    case Some(certs) =>
      match ThumbprintBytes(thumbprint)
      case None => (s, Failure(STOUL_INVALID_MESSAGE))
      case Some(hash) =>
        match FindBySha1(certs, hash)
        case None => (s, Success(false))
        case Some(c) =>
          var (t, ok) := AcquireKey(s, c, acquire);
          (t, Success(ok))
  }

  /** A certificate found in the store stays loaded when its key cannot be acquired. */
  lemma FoundWithoutKeyStaysLoaded(s: ManagerState, thumbprint: string, certs: seq<Certificate>, acquire: KeyOracle)
    requires ThumbprintBytes(thumbprint).Some?
    requires FindBySha1(certs, ThumbprintBytes(thumbprint).value).Some?
    requires acquire(FindBySha1(certs, ThumbprintBytes(thumbprint).value).value).KeyUnavailable?
    ensures StoreLoad(s, thumbprint, Some(certs), acquire).1 == Success(false)
    ensures StoreLoad(s, thumbprint, Some(certs), acquire).0.cert == FindBySha1(certs, ThumbprintBytes(thumbprint).value)
  {
  }

  /** A certificate found in the store whose key is acquired is loaded with that key, and
      the call answers true. */
  lemma FoundWithKeyLoads(s: ManagerState, thumbprint: string, certs: seq<Certificate>, acquire: KeyOracle)
    requires ThumbprintBytes(thumbprint).Some?
    requires FindBySha1(certs, ThumbprintBytes(thumbprint).value).Some?
    requires acquire(FindBySha1(certs, ThumbprintBytes(thumbprint).value).value).KeyAcquired?
    ensures var c := FindBySha1(certs, ThumbprintBytes(thumbprint).value).value;
            var r := StoreLoad(s, thumbprint, Some(certs), acquire);
            && r.1 == Success(true)
            && r.0.cert == Some(c)
            && r.0.prov == acquire(c).prov && r.0.keySpec == acquire(c).keySpec && r.0.owned == acquire(c).callerFree
  {
  }

  /** `LoadCertificateFromFile` from an already cleaned-up state: the first certificate of
      the imported store is taken, whether or not it has a key. */
  function FileLoad(s: ManagerState, imported: Option<seq<Certificate>>, acquire: KeyOracle): (r: (ManagerState, bool))
    ensures r.1 ==> imported.Some? && imported.value != [] && r.0.cert == Some(imported.value[0])
    ensures r.1 <==> imported.Some? && imported.value != [] && acquire(imported.value[0]).KeyAcquired?
    ensures imported.Some? && imported.value != [] ==> r.0.cert == Some(imported.value[0])
    ensures r.0.freed == s.freed && r.0.released == s.released
  {
    match imported
    case None => (s, false)
    case Some(certs) =>
      if certs == [] then (s, false) else AcquireKey(s, certs[0], acquire)
  }

  // ---------------------------------------------------------------------
  // Formatting

  function Reversed<T>(s: seq<T>): (r: seq<T>)
    ensures |r| == |s|
    ensures forall i :: 0 <= i < |s| ==> r[i] == s[|s| - 1 - i]
  {
    if s == [] then [] else Reversed(s[1..]) + [s[0]]
  }

  /** The serial-number text: the little-endian blob printed most significant byte first. */
  function SerialText(serial: seq<Byte>): string {
    HexLower(Reversed(serial))
  }

  /** The serial text has two lowercase digits per blob byte, blob read from last to first,
      and reads back to the reversed blob. */
  lemma SerialTextProperties(serial: seq<Byte>, k: nat)
    requires k < |serial|
    ensures |SerialText(serial)| == 2 * |serial|
    ensures SerialText(serial)[2 * k] == LowerHexDigit(serial[|serial| - 1 - k] / 16)
    ensures SerialText(serial)[2 * k + 1] == LowerHexDigit(serial[|serial| - 1 - k] % 16)
    ensures DecodeHex(SerialText(serial)) == Some(Reversed(serial))
  {
    HexLowerAt(Reversed(serial), k);
    DecodeHexLower(Reversed(serial));
  }

  /** The thumbprint text: empty when the hash property cannot be read. */
  function ThumbprintText(sha1: Option<seq<Byte>>): string {
    match sha1
    case None => ""
    case Some(bs) => HexLower(bs)
  }

  /** Bit `mask` (a power of two) is set in `b`. */
  predicate HasBit(b: Byte, mask: nat)
    requires mask > 0
  {
    (b / mask) % 2 == 1
  }

  /** The names of the RFC 5280 key-usage bits set in the first byte, most significant bit
      first: digitalSignature (0x80), nonRepudiation (0x40), keyEncipherment (0x20) and
      dataEncipherment (0x10). The low four bits are not named. */
  function KeyUsageOfByte(b: Byte): (names: seq<string>)
    ensures |names| <= 4
  {
    (if HasBit(b, 0x80) then ["Digital Signature"] else []) +
    (if HasBit(b, 0x40) then ["Non Repudiation"] else []) +
    (if HasBit(b, 0x20) then ["Key Encipherment"] else []) +
    (if HasBit(b, 0x10) then ["Data Encipherment"] else [])
  }

  /** The key-usage names: only the first byte of a decoded, non-empty bit string counts. */
  function KeyUsageNames(ext: KeyUsageExtension): (names: seq<string>)
    ensures ext.NoKeyUsage? || ext.Undecodable? || (ext.KeyUsageBits? && ext.bits == []) ==> names == []
    ensures |names| <= 4
  {
    match ext
    case KeyUsageBits(bits) => if bits == [] then [] else KeyUsageOfByte(bits[0])
    case _ => []
  }

  /** Each name appears exactly when its bit is set, and later bytes are ignored. */
  lemma KeyUsageBitsNamed(bits: seq<Byte>)
    requires bits != []
    ensures "Digital Signature" in KeyUsageNames(KeyUsageBits(bits)) <==> HasBit(bits[0], 0x80)
    ensures "Non Repudiation" in KeyUsageNames(KeyUsageBits(bits)) <==> HasBit(bits[0], 0x40)
    ensures "Key Encipherment" in KeyUsageNames(KeyUsageBits(bits)) <==> HasBit(bits[0], 0x20)
    ensures "Data Encipherment" in KeyUsageNames(KeyUsageBits(bits)) <==> HasBit(bits[0], 0x10)
    ensures KeyUsageNames(KeyUsageBits(bits)) == KeyUsageNames(KeyUsageBits(bits[..1]))
  {
  }

  /** The four named bits of the first byte, most significant first, and their names. */
  function KeyUsageFlags(b: Byte): seq<bool> {
    [HasBit(b, 0x80), HasBit(b, 0x40), HasBit(b, 0x20), HasBit(b, 0x10)]
  }

  const KEY_USAGE_NAMES: seq<string> := ["Digital Signature", "Non Repudiation", "Key Encipherment", "Data Encipherment"]

  /** The table filtered by four flags, written out as four conditional appends. */
  lemma FourSelected(f: seq<bool>)
    requires |f| == 4
    ensures Selected(f, KEY_USAGE_NAMES, 4) ==
      (if f[0] then ["Digital Signature"] else []) + (if f[1] then ["Non Repudiation"] else []) +
      (if f[2] then ["Key Encipherment"] else []) + (if f[3] then ["Data Encipherment"] else [])
  {
    assert Selected(f, KEY_USAGE_NAMES, 1) == if f[0] then ["Digital Signature"] else [];
    assert Selected(f, KEY_USAGE_NAMES, 2) == Selected(f, KEY_USAGE_NAMES, 1) + (if f[1] then ["Non Repudiation"] else []);
    assert Selected(f, KEY_USAGE_NAMES, 3) == Selected(f, KEY_USAGE_NAMES, 2) + (if f[2] then ["Key Encipherment"] else []);
  }

  /** For every byte, the names are the fixed table filtered by the four bits, keeping the
      table's order: a byte such as 0xC0 gives "Digital Signature", "Non Repudiation". */
  lemma KeyUsageOfByteFilters(b: Byte)
    ensures KeyUsageOfByte(b) == Selected(KeyUsageFlags(b), KEY_USAGE_NAMES, 4)
    ensures var idx := FlaggedIndices(KeyUsageFlags(b), 4);
      |KeyUsageOfByte(b)| == |idx| &&
      forall k :: 0 <= k < |idx| ==> KeyUsageOfByte(b)[k] == KEY_USAGE_NAMES[idx[k]]
  {
    var f := KeyUsageFlags(b);
    FourSelected(f);
    SelectedAtFlaggedIndices(f, KEY_USAGE_NAMES, 4);
  }

  /** A certificate with all bits set is named in full, in RFC 5280 bit order; one with none
      of the four set gets no names. */
  lemma AllKeyUsagesInOrder()
    ensures KeyUsageNames(KeyUsageBits([0xF0])) ==
            ["Digital Signature", "Non Repudiation", "Key Encipherment", "Data Encipherment"]
    ensures KeyUsageNames(KeyUsageBits([0x0F])) == []
  {
  }

  /** The inclusive validity window: `CompareFileTime` is neither before `NotBefore` nor
      after `NotAfter`. */
  predicate InValidityWindow(c: Certificate, now: int) {
    c.notBefore <= now <= c.notAfter
  }

  /** The information reported for one certificate; subject and issuer come from the
      same name query, so they are equal. */
  function Describe(c: Certificate, isValid: bool, formatDate: int -> string): (info: CertificateInfo)
    ensures info.issuer == info.subject
    ensures |info.serialNumber| == 2 * |c.serialNumber|
  {
    CertificateInfo(c.displayName, c.displayName, SerialText(c.serialNumber),
                    formatDate(c.notBefore), formatDate(c.notAfter),
                    KeyUsageNames(c.keyUsage), ThumbprintText(c.sha1), isValid)
  }

  /** The certificates whose private key can be acquired, in enumeration order. */
  function WithKeys(certs: seq<Certificate>, acquire: KeyOracle): seq<Certificate> {
    if certs == [] then []
    else if acquire(certs[0]).KeyAcquired? then [certs[0]] + WithKeys(certs[1..], acquire)
    else WithKeys(certs[1..], acquire)
  }

  function DescribeAll(certs: seq<Certificate>, formatDate: int -> string): seq<CertificateInfo> {
    if certs == [] then [] else [Describe(certs[0], true, formatDate)] + DescribeAll(certs[1..], formatDate)
  }

  /** Exactly the certificates whose key can be acquired are kept, and no more of them
      than were enumerated. */
  lemma {:induction false} WithKeysSelects(certs: seq<Certificate>, acquire: KeyOracle)
    ensures |WithKeys(certs, acquire)| <= |certs|
    ensures forall c :: c in WithKeys(certs, acquire) <==> c in certs && acquire(c).KeyAcquired?
  {
    if certs != [] {
      WithKeysSelects(certs[1..], acquire);
      assert forall c :: c in certs <==> c == certs[0] || c in certs[1..];
    }
  }

  /** Each enumerated entry is described in place and marked valid. */
  lemma {:induction false} DescribeAllPointwise(certs: seq<Certificate>, formatDate: int -> string)
    ensures |DescribeAll(certs, formatDate)| == |certs|
    ensures forall i :: 0 <= i < |certs| ==> DescribeAll(certs, formatDate)[i] == Describe(certs[i], true, formatDate)
    ensures forall i :: 0 <= i < |certs| ==> DescribeAll(certs, formatDate)[i].isValid
  {
    if certs != [] {
      DescribeAllPointwise(certs[1..], formatDate);
      var d := DescribeAll(certs, formatDate);
      assert d == [Describe(certs[0], true, formatDate)] + DescribeAll(certs[1..], formatDate);
      forall i | 1 <= i < |certs| ensures d[i] == Describe(certs[i], true, formatDate) {
        assert d[i] == DescribeAll(certs[1..], formatDate)[i - 1];
      }
    }
  }

  /** The providers released while enumerating: those acquired with the caller-free flag. */
  function OwnedProviders(certs: seq<Certificate>, acquire: KeyOracle): seq<nat> {
    if certs == [] then []
    else
      var rest := OwnedProviders(certs[1..], acquire);
      match acquire(certs[0])
      case KeyAcquired(prov, _, true) => [prov] + rest
      case _ => rest
  }

  // ---------------------------------------------------------------------
  // The manager object

  class CertificateManager {
    var certContext: Option<Certificate>
    var cryptProv: nat
    var keySpec: nat
    var freeProvOrNCryptKey: bool
    /** How many certificate contexts `CertFreeCertificateContext` was given. */
    ghost var certificatesFreed: nat
    /** The provider handles given to `CryptReleaseContext`, in order. */
    ghost var providersReleased: seq<nat>

    ghost function State(): ManagerState
      reads this
    {
      ManagerState(certContext, cryptProv, keySpec, freeProvOrNCryptKey, certificatesFreed, providersReleased)
    }

    constructor ()
      ensures State() == ManagerState(None, 0, 0, false, 0, [])
    {
      certContext := None;
      cryptProv := 0;
      keySpec := 0;
      freeProvOrNCryptKey := false;
      certificatesFreed := 0;
      providersReleased := [];
    }

    /** Frees the certificate, releases the provider only when it is set and owned, and
        clears the key specification and the ownership flag. */
    method Cleanup()
      modifies this
      ensures State() == AfterCleanup(old(State()))
    {
      if certContext.Some? {
        certificatesFreed := certificatesFreed + 1;
        certContext := None;
      }
      if cryptProv != 0 && freeProvOrNCryptKey {
        providersReleased := providersReleased + [cryptProv];
        cryptProv := 0;
      }
      keySpec := 0;
      freeProvOrNCryptKey := false;
    }

    /** Decodes the hex thumbprint two characters at a time; None where `stoul` throws. */
    static method DecodeThumbprint(thumbprint: string) returns (thumbprintBytes: Option<seq<Byte>>)
      ensures thumbprintBytes == ThumbprintBytes(thumbprint)
    {
      var bytes: seq<Byte> := [];
      var i := 0;
      PrependNothing(ThumbprintBytes(thumbprint));
      while i < |thumbprint|
        invariant 0 <= i
        invariant ThumbprintBytes(thumbprint) == Prepend(bytes, ThumbprintBytesFrom(thumbprint, i))
        decreases |thumbprint| - i
      {
        var byteStr := Chunk(thumbprint, i);
        var value := StoulChunk(byteStr);
        DecodeStep(thumbprint, i, bytes);
        if value.None? {
          return None;
        }
        bytes := bytes + [value.value % 256];
        i := i + 2;
      }
      DecodeEnd(thumbprint, i, bytes);
      thumbprintBytes := Some(bytes);
    }

    /** Cleans up, then looks the thumbprint up in the personal store and acquires the
        key of the certificate found. */
    method LoadCertificateFromStore(thumbprint: string, store: Option<seq<Certificate>>, acquire: KeyOracle)
      returns (r: Result<bool, string>)
      modifies this
      ensures (State(), r) == StoreLoad(AfterCleanup(old(State())), thumbprint, store, acquire)
    {
      Cleanup();
      if store.None? {
        return Success(false);
      }
      var thumbprintBytes := DecodeThumbprint(thumbprint);
      if thumbprintBytes.None? {
        return Failure(STOUL_INVALID_MESSAGE);
      }
      var found := FindBySha1(store.value, thumbprintBytes.value);
      if found.None? {
        return Success(false);
      }
      certContext := found;
      match acquire(found.value)
      case KeyUnavailable =>
        return Success(false);
      case KeyAcquired(prov, spec, callerFree) =>
        cryptProv := prov;
        keySpec := spec;
        freeProvOrNCryptKey := callerFree;
        return Success(true);
    }

    /** Cleans up, calls `PFXImportCertStore` and takes the first certificate of the store
        it returns; `imported` is that call's answer, None when it fails. The call is given
        a null blob, so neither `filePath` nor the file's contents reach it. */
    method LoadCertificateFromFile(filePath: string, password: string, imported: Option<seq<Certificate>>, acquire: KeyOracle)
      returns (ok: bool)
      modifies this
      ensures (State(), ok) == FileLoad(AfterCleanup(old(State())), imported, acquire)
    {
      Cleanup();
      if imported.None? {
        return false;
      }
      if imported.value == [] {
        return false;
      }
      certContext := Some(imported.value[0]);
      match acquire(imported.value[0])
      case KeyUnavailable =>
        return false;
      case KeyAcquired(prov, spec, callerFree) =>
        cryptProv := prov;
        keySpec := spec;
        freeProvOrNCryptKey := callerFree;
        return true;
    }

    function GetPrivateKeyHandle(): (handle: nat)
      reads this
      ensures handle == State().prov
    {
      cryptProv
    }

    /** False with no certificate, otherwise whether `now` lies in the inclusive window. */
    function ValidateCertificate(now: int): (valid: bool)
      reads this
      ensures valid <==> certContext.Some? && certContext.value.notBefore <= now <= certContext.value.notAfter
    {
      match certContext
      case None => false
      case Some(c) => !(now < c.notBefore || now > c.notAfter)
    }

    /** Prints the serial blob from its last byte to its first. */
    static method FormatSerialNumber(serialNumber: seq<Byte>) returns (text: string)
      ensures text == SerialText(serialNumber)
    {
      text := "";
      var i := |serialNumber|;
      while i > 0
        invariant 0 <= i <= |serialNumber|
        invariant text == HexLower(Reversed(serialNumber[i..]))
      {
        assert serialNumber[i - 1..][1..] == serialNumber[i..];
        HexLowerAppend(Reversed(serialNumber[i..]), [serialNumber[i - 1]]);
        text := text + ByteHex(serialNumber[i - 1]);
        i := i - 1;
      }
      assert serialNumber[0..] == serialNumber;
    }

    /** Two lowercase digits per hash byte; empty when the hash property cannot be read. */
    static method CalculateThumbprint(c: Certificate) returns (text: string)
      ensures text == ThumbprintText(c.sha1)
      ensures c.sha1.Some? ==> ThumbprintBytes(text) == c.sha1
    {
      if c.sha1.None? {
        return "";
      }
      var thumbprint := c.sha1.value;
      text := "";
      var i := 0;
      while i < |thumbprint|
        invariant 0 <= i <= |thumbprint|
        invariant text == HexLower(thumbprint[..i])
      {
        assert thumbprint[..i + 1] == thumbprint[..i] + [thumbprint[i]];
        HexLowerAppend(thumbprint[..i], [thumbprint[i]]);
        text := text + ByteHex(thumbprint[i]);
        i := i + 1;
      }
      assert thumbprint[..i] == thumbprint;
      ThumbprintRoundTrip(thumbprint);
    }

    /** Names the set bits of the first key-usage byte, in the fixed order. */
    static method ExtractKeyUsage(c: Certificate) returns (keyUsages: seq<string>)
      ensures keyUsages == KeyUsageNames(c.keyUsage)
    {
      keyUsages := [];
      if c.keyUsage.KeyUsageBits? && |c.keyUsage.bits| > 0 {
        var keyUsageByte := c.keyUsage.bits[0];
        if HasBit(keyUsageByte, 0x80) {
          keyUsages := keyUsages + ["Digital Signature"];
        }
        if HasBit(keyUsageByte, 0x40) {
          keyUsages := keyUsages + ["Non Repudiation"];
        }
        if HasBit(keyUsageByte, 0x20) {
          keyUsages := keyUsages + ["Key Encipherment"];
        }
        if HasBit(keyUsageByte, 0x10) {
          keyUsages := keyUsages + ["Data Encipherment"];
        }
      }
    }

    static method DescribeCertificate(c: Certificate, isValid: bool, formatDate: int -> string) returns (info: CertificateInfo)
      ensures info == Describe(c, isValid, formatDate)
    {
      var name := c.displayName;
      var serial := FormatSerialNumber(c.serialNumber);
      var keyUsage := ExtractKeyUsage(c);
      var thumbprint := CalculateThumbprint(c);
      info := CertificateInfo(name, name, serial, formatDate(c.notBefore), formatDate(c.notAfter),
                              keyUsage, thumbprint, isValid);
    }

    /** Empty and invalid with no certificate; otherwise the loaded certificate described,
        valid exactly when `now` lies in its window. */
    method GetCertificateInfo(now: int, formatDate: int -> string) returns (info: CertificateInfo)
      ensures certContext.None? ==> info == EmptyInfo()
      ensures certContext.Some? ==> info == Describe(certContext.value, ValidateCertificate(now), formatDate)
      ensures info.isValid == ValidateCertificate(now)
    {
      if certContext.None? {
        return EmptyInfo();
      }
      var valid := ValidateCertificate(now);
      info := DescribeCertificate(certContext.value, valid, formatDate);
    }

    /** Enumerates the personal store (None when it cannot be opened) and keeps, in order,
        the certificates whose key can be acquired; `released` records the providers
        released along the way. */
    static method GetAvailableCertificates(store: Option<seq<Certificate>>, acquire: KeyOracle, formatDate: int -> string)
      returns (certificates: seq<CertificateInfo>, ghost released: seq<nat>)
      ensures store.None? ==> certificates == [] && released == []
      ensures store.Some? ==> certificates == DescribeAll(WithKeys(store.value, acquire), formatDate)
      ensures store.Some? ==> released == OwnedProviders(store.value, acquire)
    {
      certificates, released := [], [];
      if store.None? {
        return;
      }
      var certs := store.value;
      ghost var expected := DescribeAll(WithKeys(certs, acquire), formatDate);
      ghost var owned := OwnedProviders(certs, acquire);
      var i := 0;
      assert certs[0..] == certs;
      while i < |certs|
        invariant 0 <= i <= |certs|
        invariant expected == certificates + DescribeAll(WithKeys(certs[i..], acquire), formatDate)
        invariant owned == released + OwnedProviders(certs[i..], acquire)
      {
        var certContext := certs[i];
        ghost var later := DescribeAll(WithKeys(certs[i + 1..], acquire), formatDate);
        ghost var laterOwned := OwnedProviders(certs[i + 1..], acquire);
        EnumerationStep(certs, i, acquire, formatDate);
        var key := acquire(certContext);
        if key.KeyAcquired? {
          var info := DescribeCertificate(certContext, true, formatDate);
          AppendKeeps(expected, certificates, info, later);
          certificates := certificates + [info];
          if key.callerFree {
            AppendKeeps(owned, released, key.prov, laterOwned);
            released := released + [key.prov];
          }
        }
        i := i + 1;
      }
      assert certs[i..] == [];
      assert certificates + [] == certificates;
      assert released + [] == released;
    }
  }

  /** Moving the next element from the part still to come onto the part already built. */
  lemma AppendKeeps<T>(whole: seq<T>, built: seq<T>, x: T, rest: seq<T>)
    requires whole == built + ([x] + rest)
    ensures whole == (built + [x]) + rest
  {
  }

  /** One enumeration step: the certificate at `i` contributes its description and its
      provider exactly when its key is acquired. */
  lemma EnumerationStep(certs: seq<Certificate>, i: nat, acquire: KeyOracle, formatDate: int -> string)
    requires i < |certs|
    ensures acquire(certs[i]).KeyUnavailable? ==>
              DescribeAll(WithKeys(certs[i..], acquire), formatDate) == DescribeAll(WithKeys(certs[i + 1..], acquire), formatDate)
              && OwnedProviders(certs[i..], acquire) == OwnedProviders(certs[i + 1..], acquire)
    ensures acquire(certs[i]).KeyAcquired? ==>
              DescribeAll(WithKeys(certs[i..], acquire), formatDate)
              == [Describe(certs[i], true, formatDate)] + DescribeAll(WithKeys(certs[i + 1..], acquire), formatDate)
    ensures acquire(certs[i]).KeyAcquired? && acquire(certs[i]).callerFree ==>
              OwnedProviders(certs[i..], acquire) == [acquire(certs[i]).prov] + OwnedProviders(certs[i + 1..], acquire)
    ensures acquire(certs[i]).KeyAcquired? && !acquire(certs[i]).callerFree ==>
              OwnedProviders(certs[i..], acquire) == OwnedProviders(certs[i + 1..], acquire)
  {
    assert certs[i..][1..] == certs[i + 1..];
    var w := WithKeys(certs[i + 1..], acquire);
    if acquire(certs[i]).KeyAcquired? {
      assert WithKeys(certs[i..], acquire) == [certs[i]] + w;
      assert ([certs[i]] + w)[1..] == w;
    }
  }
}
