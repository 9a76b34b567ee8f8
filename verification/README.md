# Firmador signing core, modelled in Dafny

Firmador signs PDF documents with a personal certificate. It can also attach a
timestamp from a timestamp authority (TSA). It has three parts, and this project models
the core logic of each.

- **Windows engine** (C++):
  - `PdfSigner` reads a document, checks its header, signs it through CryptoAPI, can
    fetch a timestamp, splices a signature dictionary in before the last `%%EOF` and
    writes the result. It also counts page objects.
  - `TSAClient` keeps an ordered list of authorities. It builds its own request bytes and
    posts them to each authority in turn until one answers.
  - `CertificateManager` holds at most one certificate and the provider handle of its
    private key. It loads from the Windows store or from the store `PFXImportCertStore`
    returns. That call gets a null blob, so the named PKCS#12 file is never read. The
    manager releases what it owns in `Cleanup` and formats thumbprints, serial numbers
    and key usages.
- **Android helpers** (Kotlin):
  - `TSAClient` builds the list of servers, retries and falls back over them, sorts
    failures into categories and names the known authorities.
  - `CertificateHelper` describes the certificate of a key store.
  - `PdfSignatureService` validates a signing request, derives the output path, writes
    the appearance text and decides the outcome of signing, including the fallback
    without a timestamp.
- **Backend** (Java, Spring):
  - `DigitalSignatureController` checks uploads, hands work to the signature service and
    shapes the HTTP responses, including the `_signed` filename.
  - `CertificateService` turns a parsed X.509 certificate into the information the API
    returns.
  - `DocumentStorageService` keeps signed documents in an in-memory table.

Each source file is one Dafny module. The pure routines are functions with lemmas. The
routines that loop or update state are methods, and each method's `ensures` ties it to
the function that specifies it. Classes whose fields the source updates in place stay
classes. These are:

- the Windows `PdfSigner`, `TSAClient` and `CertificateManager`;
- the Android `TSAClient` and `PdfSignatureService`;
- the backend `DocumentStorageService` and `DigitalSignatureController`.

Parameters stand in for everything outside the program: files, CryptoAPI and CNG,
WinINet, the certificate stores, iText and BouncyCastle, the clock and the random nonce.
Each is a total function or a datatype that says what the call returned. `Byte` is an
integer from 0 to 255, and strings are sequences of characters. The Kotlin `Int`
arithmetic in `hashCode` has its 32-bit wrap-around written out.

The model follows what the code does, including where its own comments promise more:

- `TSAClient::TestTSAServer` counts a server as reachable when its status is 200 or 405;
  the comment at `windows/runner/crypto/tsa_client.cpp:100` gives the reason for 405.
- `CertificateManager::LoadCertificateFromFile` is commented "Find the first certificate
  with a private key" (`windows/runner/crypto/certificate_manager.cpp:92`). The code
  takes the first certificate the imported store enumerates, whether or not it has a
  private key, and the model does the same.
- `CreateTSARequest` is commented as a placeholder that a full version would replace with
  proper ASN.1 (`windows/runner/crypto/tsa_client.cpp:130` and `:138`). It overwrites
  byte 2 of the request (the version's INTEGER tag) with the high length byte and then
  inserts the low byte, so the bytes are not the RFC 3161 `TimeStampReq` encoding. The
  model follows the bytes.

## Model

| member | source | states |
|---|---|---|
| Text.SerialUpperHex | backend/src/main/java/com/firmador/backend/service/CertificateService.java:36 | `toString(16).toUpperCase()` of a serial: non-empty, upper-case hex digits for a non-negative serial, a leading '-' for a negative one |
| Text.SerialUpperHexRoundTrip | backend/src/main/java/com/firmador/backend/service/CertificateService.java:36 | reading the upper-case hex text of a non-negative serial back gives the serial |
| Text.DecimalRoundTrip | backend/src/main/java/com/firmador/backend/service/CertificateService.java:43 | the decimal text of a number reads back to that number |
| Text.SplitJoin | backend/src/main/java/com/firmador/backend/service/CertificateService.java:71 | joining the pieces of a split with the separator gives the original text back, so no character is lost |
| PdfSigner.ValidatePdfData | windows/runner/crypto/pdf_signer.cpp:172-181 | a document passes the header check exactly when it has at least eight bytes and starts with `%PDF-` |
| PdfSigner.SevenByteHeaderRejected | windows/runner/crypto/pdf_signer.cpp:174-176 | the seven-byte text `%PDF-1.` fails the check, even though it starts with the marker |
| PdfSigner.PageHitsCountsPages | windows/runner/crypto/pdf_signer.cpp:150-158 | the scan (find the key, count it when a byte other than `s` follows, jump 11 bytes) counts exactly the positions where a page object sits |
| PdfSigner.NoSelfOverlap | windows/runner/crypto/pdf_signer.cpp:152-157 | two occurrences of `/Type /Page` cannot overlap, so the 11-byte jump skips no occurrence |
| PdfSigner.PagesTreeNotCounted | windows/runner/crypto/pdf_signer.cpp:153-156 | `/Type /Pages` is not counted, while a page object followed by a space is counted once |
| PdfSigner.PdfSigner.GetPageCount | windows/runner/crypto/pdf_signer.cpp:140-161 | an unreadable or empty file gives 0; otherwise the number of page objects, or 1 when there are none |
| PdfSigner.PdfSigner.ValidatePdf | windows/runner/crypto/pdf_signer.cpp:172-181 | true exactly when the file read has at least eight bytes and starts with `%PDF-` |
| PdfSigner.PdfSigner.GetPageDimensions | windows/runner/crypto/pdf_signer.cpp:163-170 | always succeeds with a 612 by 792 point page |
| PdfSigner.SignatureBytes | windows/runner/crypto/pdf_signer.cpp:210-257 | no signature when hashing fails or no key handle is held; otherwise the provider's signature of the hash |
| PdfSigner.PdfSigner.CreateSignature | windows/runner/crypto/pdf_signer.cpp:210-257 | the signature is the one `SignatureBytes` gives for the manager's key handle: none when hashing fails or the handle is zero, otherwise the provider's signature of the hash |
| PdfSigner.SplicePreserves | windows/runner/crypto/pdf_signer.cpp:266-308 | no output without `%%EOF`; otherwise the object is inserted at the last `%%EOF`, the bytes before and from the marker are kept, and the document grows |
| PdfSigner.Insertion | windows/runner/crypto/pdf_signer.cpp:306 | inserting bytes at an offset keeps the text on both sides in place |
| PdfSigner.ThreePieces | windows/runner/crypto/pdf_signer.cpp:276-302 | a text built from three pieces can be cut back into those pieces |
| PdfSigner.ContentsHoldSignature | windows/runner/crypto/pdf_signer.cpp:284-289 | the `/Contents <` entry is followed by the signature's hex |
| PdfSigner.TimestampEntryPlacement | windows/runner/crypto/pdf_signer.cpp:291-302 | after the signature hex comes a `/TimeStamp` entry holding the token's hex exactly when the token is non-empty, and then the fixed tail |
| PdfSigner.ByteRangeNamesMarker | windows/runner/crypto/pdf_signer.cpp:283 | the byte range's second number is the offset of the last `%%EOF` |
| PdfSigner.ByteRangeNamesResume | windows/runner/crypto/pdf_signer.cpp:283 | the byte range's third number follows the second after one space and is followed by ` 1000]` |
| PdfSigner.SecondNumber | windows/runner/crypto/pdf_signer.cpp:283 | in the byte-range text a space separates the second and third numbers |
| PdfSigner.PdfSigner.AppendHex | windows/runner/crypto/pdf_signer.cpp:287-295 | each byte is appended as two lowercase hex digits, in order |
| PdfSigner.PdfSigner.AddSignatureToPdf | windows/runner/crypto/pdf_signer.cpp:259-309 | the result is the splice described by `SplicePreserves` |
| PdfSigner.TimestampStage | windows/runner/crypto/pdf_signer.cpp:49-61 | no token and no server name unless a timestamp is requested |
| PdfSigner.PdfSigner.ObtainTimestamp | windows/runner/crypto/pdf_signer.cpp:49-61 | the token and server name are those `TimestampStage` gives for the client's state |
| PdfSigner.EmbedStages | windows/runner/crypto/pdf_signer.cpp:40-69 | without a signature the run stops at signing; without `%%EOF` it stops at embedding; otherwise the spliced document is longer than the input |
| PdfSigner.EmbedServer | windows/runner/crypto/pdf_signer.cpp:51-61 | a server is named only when a timestamp was requested and obtained, and it is the server that answered |
| PdfSigner.TimestampFailureNotFatal | windows/runner/crypto/pdf_signer.cpp:57-60 | when no server answers, asking for a timestamp ends exactly as not asking for one |
| PdfSigner.PdfSigner.SignAndEmbed | windows/runner/crypto/pdf_signer.cpp:40-69 | the outcome of the shared signing stages is the one `EmbedStages` describes |
| PdfSigner.SignPdfStages | windows/runner/crypto/pdf_signer.cpp:15-89 | the file pipeline stops at the first failing stage (read, header, sign, embed, write) with that stage's message, and succeeds exactly when every stage does |
| PdfSigner.InvalidHeaderSignsNothing | windows/runner/crypto/pdf_signer.cpp:33-38 | a document that fails the header check is never signed or written |
| PdfSigner.SignPdfSuccess | windows/runner/crypto/pdf_signer.cpp:78-81 | a successful run names the output path, reports no error, and reports a signed size larger than the original size |
| PdfSigner.PdfSigner.SignPdf | windows/runner/crypto/pdf_signer.cpp:15-89 | the result and the written bytes are the pipeline outcome described by `SignPdfStages` |
| PdfSigner.MemoryMatchesFile | windows/runner/crypto/pdf_signer.cpp:91-138 | from memory the result equals a successful file run's result without the output path |
| PdfSigner.MemorySkipsHeaderCheck | windows/runner/crypto/pdf_signer.cpp:91-138 | from memory a document without `%PDF-` is still signed when it has a signature and `%%EOF` |
| PdfSigner.PdfSigner.SignPdfFromMemory | windows/runner/crypto/pdf_signer.cpp:91-138 | the result is the in-memory pipeline outcome: no header check, no write, no output path |
| PdfSigner.PdfSigner.constructor | windows/runner/crypto/pdf_signer.cpp:9-10 | the signer owns a fresh timestamp client holding the default server list |
| TsaClient.DefaultServers | windows/runner/crypto/tsa_client.cpp:275-312 | the default list holds five servers |
| TsaClient.Names | windows/runner/crypto/tsa_client.cpp:275-312 | the names of a server list, position by position |
| TsaClient.DefaultServersOrder | windows/runner/crypto/tsa_client.cpp:275-312 | the defaults are FreeTSA, DigiCert, Sectigo, GlobalSign and Entrust, in that order, and none requires authentication |
| TsaClient.TSAClient.constructor | windows/runner/crypto/tsa_client.cpp:6-17 | the client records whether WinINet opened and holds the default servers |
| TsaClient.TSAClient.InitializeDefaultTSAServers | windows/runner/crypto/tsa_client.cpp:275-312 | the server list becomes the default list |
| TsaClient.TSAClient.SetTSAServers | windows/runner/crypto/tsa_client.cpp:65-67 | the server list becomes the given list |
| TsaClient.TSAClient.GetAvailableTSAServers | windows/runner/crypto/tsa_client.cpp:69-71 | returns the current server list |
| TsaClient.TSAClient.TestTSAServer | windows/runner/crypto/tsa_client.cpp:73-101 | a server is alive exactly when WinINet is open, the URL opens, the status is read and it is 200 or 405 |
| TsaClient.SplitAfterScheme | windows/runner/crypto/tsa_client.cpp:190-200 | the URL is the scheme, then the host (no `/`), then the path (starting with `/`); without a `/` after the host the split fails as `substr` does |
| TsaClient.SplitUrl | windows/runner/crypto/tsa_client.cpp:186-203 | `https://` gives port 443 and a secure request, `http://` gives port 80, and any other scheme fails with "Unsupported URL scheme" |
| TsaClient.TSAClient.ReadResponse | windows/runner/crypto/tsa_client.cpp:256-267 | the response is the bytes of every chunk read, in order, up to the first failed read |
| TsaClient.TSAClient.HttpPostRequest | windows/runner/crypto/tsa_client.cpp:179-273 | the outcome is the exchange the transport gives; a URL that cannot be split throws with the split's message |
| TsaClient.AttemptOutcome | windows/runner/crypto/tsa_client.cpp:103-125 | an attempt succeeds exactly when the server answers 200 with a non-empty body, and then carries that body and the server's name; otherwise the message is "HTTP " and the status, or the thrown message |
| TsaClient.AttemptRule | windows/runner/crypto/tsa_client.cpp:111-118 | after a completed POST, success holds exactly when the status is 200 and the body is non-empty |
| TsaClient.UnsupportedSchemeFailsAttempt | windows/runner/crypto/tsa_client.cpp:201-203 | a server whose URL is neither `https://` nor `http://` fails with "Unsupported URL scheme" |
| TsaClient.TSAClient.RequestTimestampFromServer | windows/runner/crypto/tsa_client.cpp:103-125 | the response is the attempt outcome `AttemptOutcome` describes |
| TsaClient.FirstSuccess | windows/runner/crypto/tsa_client.cpp:44-56 | the index of the first server that answers, or none when no server does |
| TsaClient.FirstWhere | windows/runner/crypto/tsa_client.cpp:44-56 | the first index from a starting point that satisfies a test, or none |
| TsaClient.FirstSuccessIs | windows/runner/crypto/tsa_client.cpp:44-56 | a server that answers after every earlier one failed is the first success |
| TsaClient.StopAt | windows/runner/crypto/tsa_client.cpp:47-52 | the loop returns the first answering server's response, with that server's name |
| TsaClient.TimestampSuccessIsFirstSuccess | windows/runner/crypto/tsa_client.cpp:25-63 | a successful timestamp needs WinINet open and comes from the first answering server, carrying its name and body |
| TsaClient.AllServersFailed | windows/runner/crypto/tsa_client.cpp:58-62 | when no server answers the result is "All TSA servers failed" |
| TsaClient.SecondServerAnswers | windows/runner/crypto/tsa_client.cpp:44-56 | when the first server fails and the second answers, the second server is used |
| TsaClient.TSAClient.AskEach | windows/runner/crypto/tsa_client.cpp:44-62 | the loop over the servers gives the outcome described by `TimestampSuccessIsFirstSuccess` and `AllServersFailed` |
| TsaClient.TSAClient.AskInOrder | windows/runner/crypto/tsa_client.cpp:44-62 | asks the client's own servers in order |
| TsaClient.TSAClient.GetTimestamp | windows/runner/crypto/tsa_client.cpp:25-63 | without WinINet the result is "WinINet not initialized"; otherwise the request is built and the servers are asked in order |
| TsaClient.LengthPatch | windows/runner/crypto/tsa_client.cpp:171-174 | writing the high length byte at offset 2 and inserting the low byte at offset 3 gives the final request |
| TsaClient.DraftShape | windows/runner/crypto/tsa_client.cpp:139-169 | before the patch the request is `30 82 02` and the rest, with length of the hash plus 28 |
| TsaClient.RequestShape | windows/runner/crypto/tsa_client.cpp:171-174 | the final request starts with `30 82` and the two length bytes of the hash length plus 25 |
| TsaClient.PatchAt2 | windows/runner/crypto/tsa_client.cpp:173-174 | the overwrite-then-insert patch puts the two length bytes at offsets 2 and 3 |
| TsaClient.TSARequestLayout | windows/runner/crypto/tsa_client.cpp:127-177 | the request has the hash length plus 29 bytes: header, declared length, version, the OID bytes, the hash after `04` and its length, and the eight nonce bytes last |
| TsaClient.TSARequestRoundTrip | windows/runner/crypto/tsa_client.cpp:127-177 | for a hash under 256 bytes, parsing the request gives back the hash and the nonce, and the declared length is the request length minus 4 |
| TsaClient.TSAClient.CreateTSARequest | windows/runner/crypto/tsa_client.cpp:127-177 | the request is the layout `TSARequestLayout` describes, with the hash length plus 29 bytes |
| TsaClient.TSAClient.AppendNonce | windows/runner/crypto/tsa_client.cpp:164-169 | the nonce bytes are appended in order |
| CertificateManager.CertificateManager.constructor | windows/runner/crypto/certificate_manager.cpp:7-9 | a new manager holds no certificate, no key handle, no key spec and owns nothing |
| CertificateManager.AfterCleanup | windows/runner/crypto/certificate_manager.cpp:315-328 | cleanup frees a held certificate, releases the key handle only when the manager owns it, and clears the key spec and ownership flag |
| CertificateManager.CleanupIdempotent | windows/runner/crypto/certificate_manager.cpp:315-328 | cleaning up twice is the same as cleaning up once |
| CertificateManager.UnownedProviderSurvives | windows/runner/crypto/certificate_manager.cpp:321-324 | a key handle the manager does not own is neither released nor cleared |
| CertificateManager.CertificateManager.Cleanup | windows/runner/crypto/certificate_manager.cpp:315-328 | the new state is the state `AfterCleanup` gives |
| CertificateManager.StoulChunk | windows/runner/crypto/certificate_manager.cpp:28-29 | `stoul` base 16 of a one- or two-character chunk: leading blanks, optional sign and `0x`, then at least one hex digit, else an error |
| CertificateManager.Chunk | windows/runner/crypto/certificate_manager.cpp:28 | `substr(i, 2)` gives one or two characters |
| CertificateManager.DecodeStep | windows/runner/crypto/certificate_manager.cpp:27-31 | one loop step: an invalid chunk aborts the conversion, a valid one appends its value truncated to a byte and moves on by two |
| CertificateManager.DecodeEnd | windows/runner/crypto/certificate_manager.cpp:27 | the loop ends once the index reaches the end of the thumbprint |
| CertificateManager.StoulPair | windows/runner/crypto/certificate_manager.cpp:29 | two hex digits convert to the value they spell |
| CertificateManager.ThumbprintIsHexDecode | windows/runner/crypto/certificate_manager.cpp:26-31 | on an even-length all-hex thumbprint the conversion is plain hex decoding |
| CertificateManager.ThumbprintRoundTrip | windows/runner/crypto/certificate_manager.cpp:294-313 | converting a thumbprint as printed back to bytes gives the hash bytes |
| CertificateManager.ThumbprintCaseInsensitive | windows/runner/crypto/certificate_manager.cpp:26-31 | an upper-case thumbprint converts to the same bytes as the lower-case one |
| CertificateManager.DecodeHexUpper | windows/runner/crypto/certificate_manager.cpp:29 | hex decoding ignores letter case |
| CertificateManager.HexLowerDigits | windows/runner/crypto/certificate_manager.cpp:307-310 | a printed thumbprint consists of hex digits only |
| CertificateManager.CertificateManager.DecodeThumbprint | windows/runner/crypto/certificate_manager.cpp:26-31 | the loop's bytes are the conversion `DecodeStep` describes, or none when `stoul` throws |
| CertificateManager.FindBySha1 | windows/runner/crypto/certificate_manager.cpp:38-45 | the result is the first certificate in store order with the requested SHA-1 hash; none is found only when no certificate has it |
| CertificateManager.StoreLoad | windows/runner/crypto/certificate_manager.cpp:15-69 | success means the loaded certificate has the thumbprint's hash and its key handle is held; a bad thumbprint throws and leaves the state as it was |
| CertificateManager.FoundWithoutKeyStaysLoaded | windows/runner/crypto/certificate_manager.cpp:49-65 | a certificate found without an obtainable key stays loaded although the load reports failure |
| CertificateManager.FoundWithKeyLoads | windows/runner/crypto/certificate_manager.cpp:38-68 | a certificate found by its hash whose key is acquired is loaded with that provider, key specification and ownership flag, and the call answers true |
| CertificateManager.CertificateManager.LoadCertificateFromStore | windows/runner/crypto/certificate_manager.cpp:15-69 | cleans up first, then the state and answer `StoreLoad` gives |
| CertificateManager.FileLoad | windows/runner/crypto/certificate_manager.cpp:71-119 | the first imported certificate is loaded; the load succeeds exactly when there is one and its key is obtained |
| CertificateManager.CertificateManager.LoadCertificateFromFile | windows/runner/crypto/certificate_manager.cpp:71-119 | cleans up first, then the state and answer `FileLoad` gives |
| CertificateManager.CertificateManager.GetPrivateKeyHandle | windows/runner/crypto/certificate_manager.cpp:186-188 | returns the held key handle |
| CertificateManager.CertificateManager.ValidateCertificate | windows/runner/crypto/certificate_manager.cpp:194-210 | valid exactly when a certificate is held and the current time lies within its validity window, both ends included |
| CertificateManager.Reversed | windows/runner/crypto/certificate_manager.cpp:228-231 | the bytes in reverse order |
| CertificateManager.SerialTextProperties | windows/runner/crypto/certificate_manager.cpp:226-233 | the serial is printed from its last byte to its first, two lowercase hex digits per byte, and decodes back to the reversed bytes |
| CertificateManager.CertificateManager.FormatSerialNumber | windows/runner/crypto/certificate_manager.cpp:226-233 | the text is the serial text `SerialTextProperties` describes |
| CertificateManager.CertificateManager.CalculateThumbprint | windows/runner/crypto/certificate_manager.cpp:294-313 | empty without a hash property; otherwise the hash in lowercase hex, which converts back to the hash |
| CertificateManager.KeyUsageOfByte | windows/runner/crypto/certificate_manager.cpp:273-286 | at most four names from the first key-usage byte |
| CertificateManager.KeyUsageNames | windows/runner/crypto/certificate_manager.cpp:249-292 | no names without the extension, when decoding fails or when the bit string is empty |
| CertificateManager.KeyUsageBitsNamed | windows/runner/crypto/certificate_manager.cpp:272-286 | each of the four names appears exactly when its bit of the first byte is set, and later bytes are ignored |
| CertificateManager.KeyUsageOfByteFilters | windows/runner/crypto/certificate_manager.cpp:275-286 | for every first byte, the names are the four-name table filtered by bits 0x80, 0x40, 0x20 and 0x10, in table order |
| CertificateManager.AllKeyUsagesInOrder | windows/runner/crypto/certificate_manager.cpp:275-286 | with all four bits set the names come in the order digital signature, non-repudiation, key encipherment, data encipherment; the low nibble names nothing |
| CertificateManager.CertificateManager.ExtractKeyUsage | windows/runner/crypto/certificate_manager.cpp:249-292 | the names are those `KeyUsageNames` gives |
| CertificateManager.Describe | windows/runner/crypto/certificate_manager.cpp:129-136 | the issuer field repeats the subject's display name, and the serial text has two digits per serial byte |
| CertificateManager.CertificateManager.DescribeCertificate | windows/runner/crypto/certificate_manager.cpp:164-172 | the description is the one `Describe` gives |
| CertificateManager.CertificateManager.GetCertificateInfo | windows/runner/crypto/certificate_manager.cpp:121-139 | an empty, invalid description without a certificate; otherwise the certificate's description with the validity check's verdict |
| CertificateManager.WithKeysSelects | windows/runner/crypto/certificate_manager.cpp:150-180 | the listed certificates are exactly the store's certificates whose key can be obtained |
| CertificateManager.DescribeAllPointwise | windows/runner/crypto/certificate_manager.cpp:164-174 | each listed certificate is described in store order and marked valid |
| CertificateManager.EnumerationStep | windows/runner/crypto/certificate_manager.cpp:150-180 | one loop step: a certificate without a key adds nothing; one with a key adds its description, and its handle is released when the caller must free it |
| CertificateManager.CertificateManager.GetAvailableCertificates | windows/runner/crypto/certificate_manager.cpp:141-184 | nothing when the store does not open; otherwise the descriptions of the certificates with keys, in order, and the handles the caller had to free are released |
| AndroidTsaClient.Int32 | android/app/src/main/kotlin/com/example/firmador/crypto/TSAClient.kt:279-286 | Kotlin's `Int` arithmetic: the result lies in the 32-bit range and agrees with the exact value modulo 2^32 |
| AndroidTsaClient.ContentHash | android/app/src/main/kotlin/com/example/firmador/crypto/TSAClient.kt:281 | `contentHashCode` of the token is a 32-bit value |
| AndroidTsaClient.StringHash | android/app/src/main/kotlin/com/example/firmador/crypto/TSAClient.kt:282-284 | `String.hashCode` is a 32-bit value |
| AndroidTsaClient.HashCode | android/app/src/main/kotlin/com/example/firmador/crypto/TSAClient.kt:279-286 | the combined hash of a result is a 32-bit value |
| AndroidTsaClient.EqualsIsValueEquality | android/app/src/main/kotlin/com/example/firmador/crypto/TSAClient.kt:261-277 | `equals` holds exactly for another result with the same fields, token compared by content, and equal results hash alike |
| AndroidTsaClient.Distinct | android/app/src/main/kotlin/com/example/firmador/crypto/TSAClient.kt:113-114 | `distinct()` keeps every element, drops repeats and leaves no duplicates |
| AndroidTsaClient.DistinctKeeps | android/app/src/main/kotlin/com/example/firmador/crypto/TSAClient.kt:113-114 | a list without duplicates is unchanged by `distinct()` |
| AndroidTsaClient.DefaultsDistinct | android/app/src/main/kotlin/com/example/firmador/crypto/TSAClient.kt:30-36 | the five default servers are distinct |
| AndroidTsaClient.ServerListShape | android/app/src/main/kotlin/com/example/firmador/crypto/TSAClient.kt:100-115 | a non-blank primary URL not among the defaults comes first, then the defaults in order; otherwise the defaults alone; the list has no duplicates |
| AndroidTsaClient.TSAClient.BuildServerList | android/app/src/main/kotlin/com/example/firmador/crypto/TSAClient.kt:100-115 | the list is the one `ServerListShape` describes |
| AndroidTsaClient.CategorizeFirstMatch | android/app/src/main/kotlin/com/example/firmador/crypto/TSAClient.kt:221-234 | a missing message is UNKNOWN_ERROR; otherwise each category is chosen exactly when its substrings occur and no earlier branch's do, in the order 405, 400, 401/403, "timeout", SSL/TLS, UnknownHost/Network, and UNKNOWN_ERROR when none occurs |
| AndroidTsaClient.StopsRetryingOnStatus | android/app/src/main/kotlin/com/example/firmador/crypto/TSAClient.kt:72-75 | the remaining attempts on a server are skipped exactly when the error message mentions 405, 400, 401 or 403 |
| AndroidTsaClient.DisplayName | android/app/src/main/kotlin/com/example/firmador/crypto/TSAClient.kt:239-248 | the name is one of the five known names or "Custom TSA", and "Custom TSA" exactly when the URL mentions no known domain |
| AndroidTsaClient.DisplayNameFirstMatch | android/app/src/main/kotlin/com/example/firmador/crypto/TSAClient.kt:240-247 | a known name is given exactly when its domain is mentioned and no earlier domain is |
| AndroidTsaClient.FreeTsaNamed | android/app/src/main/kotlin/com/example/firmador/crypto/TSAClient.kt:31 | the first default server is shown as FreeTSA |
| AndroidTsaClient.TSAClient.GetTsaServerDisplayName | android/app/src/main/kotlin/com/example/firmador/crypto/TSAClient.kt:239-248 | the name is the one `DisplayName` gives |
| AndroidTsaClient.RunBounds | android/app/src/main/kotlin/com/example/firmador/crypto/TSAClient.kt:59-87 | a server gets between one and `MAX_RETRIES` requests; a first failure that stops retrying sends one; an obtained result is a success naming that server |
| AndroidTsaClient.TokenFromFirstSuccess | android/app/src/main/kotlin/com/example/firmador/crypto/TSAClient.kt:56-94 | a success comes from the first server in the list whose attempts obtain a token, and every earlier server's attempts failed; otherwise the result is the "All TSA servers failed" error and every server failed |
| AndroidTsaClient.TSAClient.GetTimestampToken | android/app/src/main/kotlin/com/example/firmador/crypto/TSAClient.kt:48-95 | the result is the outcome of the fallback loop over the built server list that `TokenFromFirstSuccess` describes |
| AndroidCertificateHelper.KeyUsageNamesDistinct | android/app/src/main/kotlin/com/example/firmador/crypto/CertificateHelper.kt:81-89 | the nine key-usage names are pairwise different |
| AndroidCertificateHelper.KeyUsageNaming | android/app/src/main/kotlin/com/example/firmador/crypto/CertificateHelper.kt:79-90 | a name is listed exactly when its bit among the first nine is set, names come in bit order, later entries are ignored, and a missing extension gives no names (no default) |
| AndroidCertificateHelper.CertificateHelper.CollectKeyUsages | android/app/src/main/kotlin/com/example/firmador/crypto/CertificateHelper.kt:79-90 | the nine conditional appends give the names `KeyUsageNaming` describes |
| AndroidCertificateHelper.FirstCommonName | android/app/src/main/kotlin/com/example/firmador/crypto/CertificateHelper.kt:125-131 | the value of the first attribute whose type is 2.5.4.3, and none exactly when no attribute has that type |
| AndroidCertificateHelper.CnMatchFrom | android/app/src/main/kotlin/com/example/firmador/crypto/CertificateHelper.kt:134-135 | the leftmost `CN=` followed by a character other than a comma, which is where `CN=([^,]+)` first matches |
| AndroidCertificateHelper.CommaFrom | android/app/src/main/kotlin/com/example/firmador/crypto/CertificateHelper.kt:134 | the first comma from a position on, or the end of the text |
| AndroidCertificateHelper.ParsedCommonName | android/app/src/main/kotlin/com/example/firmador/crypto/CertificateHelper.kt:125-131 | when the name parses, the first CN attribute's value is returned |
| AndroidCertificateHelper.RegexFallback | android/app/src/main/kotlin/com/example/firmador/crypto/CertificateHelper.kt:133-136 | without a CN attribute: "Unknown" when no `CN=` is followed by a non-comma, otherwise the trimmed group of the leftmost match |
| AndroidCertificateHelper.SplitFallback | android/app/src/main/kotlin/com/example/firmador/crypto/CertificateHelper.kt:138-141 | when parsing throws: the trimmed text after the first `CN=` up to the next comma |
| AndroidCertificateHelper.CertificateHelper.ExtractCommonName | android/app/src/main/kotlin/com/example/firmador/crypto/CertificateHelper.kt:119-142 | the loop over the parsed attributes and the two fallbacks give the common name the three lemmas above describe |
| AndroidCertificateHelper.CertificateInfoFacts | android/app/src/main/kotlin/com/example/firmador/crypto/CertificateHelper.kt:93-106 | `trusted` holds exactly when now lies in the validity window; a non-negative serial number is printed as hex that reads back to it, a negative one starts with `-` |
| AndroidCertificateHelper.CertificateHelper.ExtractCertificateInfo | android/app/src/main/kotlin/com/example/firmador/crypto/CertificateHelper.kt:67-114 | the map holds the subject and issuer names, the formatted dates, the uppercase hex serial, the common name, the key usages and the validity flag |
| AndroidCertificateHelper.LoadFailureWrapped | android/app/src/main/kotlin/com/example/firmador/crypto/CertificateHelper.kt:24-35 | every failure is reported as "Error loading certificate: " and the cause's message; a loaded certificate with a readable key-usage array always yields its information |
| AndroidCertificateHelper.CertificateHelper.LoadCertificateInfo | android/app/src/main/kotlin/com/example/firmador/crypto/CertificateHelper.kt:24-35 | the answer is the one `LoadFailureWrapped` describes |
| AndroidSignatureService.ValidationCases | android/app/src/main/kotlin/com/example/firmador/signature/PdfSignatureService.kt:170-175 | a request passes exactly when both files exist and the password and signer name are not blank; the first failed check's message is reported |
| AndroidSignatureService.PdfSignatureService.ValidateRequest | android/app/src/main/kotlin/com/example/firmador/signature/PdfSignatureService.kt:170-175 | the error is the first failed requirement, in the order of the checks |
| AndroidSignatureService.ParentOf | android/app/src/main/kotlin/com/example/firmador/signature/PdfSignatureService.kt:182 | the parent is a proper prefix of the path |
| AndroidSignatureService.NameOf | android/app/src/main/kotlin/com/example/firmador/signature/PdfSignatureService.kt:183 | the file name holds no `/` |
| AndroidSignatureService.ExtensionOf | android/app/src/main/kotlin/com/example/firmador/signature/PdfSignatureService.kt:184 | the extension holds no `.` |
| AndroidSignatureService.StemAndExtension | android/app/src/main/kotlin/com/example/firmador/signature/PdfSignatureService.kt:183-184 | the name without extension, a dot and the extension give back the name; without a dot the extension is empty |
| AndroidSignatureService.LastOccurrence | android/app/src/main/kotlin/com/example/firmador/signature/PdfSignatureService.kt:183-184 | the last occurrence of a character is found after every earlier one |
| AndroidSignatureService.OutputBesideInput | android/app/src/main/kotlin/com/example/firmador/signature/PdfSignatureService.kt:180-187 | `dir/stem.ext` becomes `dir/stem_signed_android.ext` |
| AndroidSignatureService.OutputWithoutDirectory | android/app/src/main/kotlin/com/example/firmador/signature/PdfSignatureService.kt:182-186 | a path without a directory gets the empty parent, so the output starts with `/` |
| AndroidSignatureService.AppearanceTimestamp | android/app/src/main/kotlin/com/example/firmador/signature/PdfSignatureService.kt:239-256 | after the signer lines the box says "Timestamp: Not included" when disabled, shows the timestamp when obtained, and says "Requested but not available" otherwise |
| AndroidSignatureService.PdfSignatureService.ObtainTimestamp | android/app/src/main/kotlin/com/example/firmador/signature/PdfSignatureService.kt:192-204 | the pre-fetch is the client's answer for the fixed dummy message and the request's server |
| AndroidSignatureService.Failed | android/app/src/main/kotlin/com/example/firmador/signature/PdfSignatureService.kt:156-163 | an escaped exception gives a failure whose message starts with "Failed to sign PDF: " and which carries the exception |
| AndroidSignatureService.OutcomeShape | android/app/src/main/kotlin/com/example/firmador/signature/PdfSignatureService.kt:44-165 | failures carry the prefix and the cause; successes name the output path; `timestampUsed` holds exactly when timestamp information is reported, and the server reported is the request's URL |
| AndroidSignatureService.PrefetchFailureProceeds | android/app/src/main/kotlin/com/example/firmador/signature/PdfSignatureService.kt:78-89 | a failed pre-fetch attaches no timestamp client and signing goes on without one |
| AndroidSignatureService.RetryWithoutTimestamp | android/app/src/main/kotlin/com/example/firmador/signature/PdfSignatureService.kt:118-153 | a signing failure with a timestamp client attached is retried once without it, giving `timestampUsed=false` and the warning; without a client the exception becomes a failure |
| AndroidSignatureService.PdfSignatureService.SignPdf | android/app/src/main/kotlin/com/example/firmador/signature/PdfSignatureService.kt:44-165 | the result is the outcome `OutcomeShape`, `PrefetchFailureProceeds` and `RetryWithoutTimestamp` describe |
| CertificateService.TrimAll | backend/src/main/java/com/firmador/backend/service/CertificateService.java:72-73 | one trimmed part per part of the split |
| CertificateService.TrimAllAt | backend/src/main/java/com/firmador/backend/service/CertificateService.java:73 | each trimmed part is the `trim()` of the part at the same position |
| CertificateService.FirstCnPart | backend/src/main/java/com/firmador/backend/service/CertificateService.java:72-77 | the index of the first trimmed part that starts with `CN=`, or none when no part does |
| CertificateService.CommonNameFromFirstCn | backend/src/main/java/com/firmador/backend/service/CertificateService.java:72-76 | when the first `CN=` part is at index k, that part is `CN=` followed by the returned name |
| CertificateService.CommonNameWithoutCn | backend/src/main/java/com/firmador/backend/service/CertificateService.java:79-80 | without a `CN=` part the whole name is returned |
| CertificateService.SplitAllFirstPiece | backend/src/main/java/com/firmador/backend/service/CertificateService.java:71 | the first piece of a split is the text before the first separator |
| CertificateService.TrimmedUnchanged | backend/src/main/java/com/firmador/backend/service/CertificateService.java:73 | a part with no blank at either end is left as it is by `trim()` |
| CertificateService.JavaSplitFirstPiece | backend/src/main/java/com/firmador/backend/service/CertificateService.java:71 | `split(",")` keeps a non-empty leading piece first |
| CertificateService.CommonNameOfLeadingCn | backend/src/main/java/com/firmador/backend/service/CertificateService.java:66-85 | for a name `CN=v,...` whose value v has no comma and does not end in a blank, the common name is v |
| CertificateService.ExtractCommonName | backend/src/main/java/com/firmador/backend/service/CertificateService.java:66-85 | the loop over the trimmed parts returns the common name the lemmas above describe |
| CertificateService.BasicUsages | backend/src/main/java/com/firmador/backend/service/CertificateService.java:92-111 | no basic names without a key-usage array |
| CertificateService.BasicUsageNamesDistinct | backend/src/main/java/com/firmador/backend/service/CertificateService.java:94-104 | the nine backend key-usage names are pairwise different |
| CertificateService.BasicUsageNaming | backend/src/main/java/com/firmador/backend/service/CertificateService.java:106-110 | a basic name is listed exactly when its index is below the array length and nine and its bit is set; names come in index order |
| CertificateService.ExtendedUsageNames | backend/src/main/java/com/firmador/backend/service/CertificateService.java:138-155 | each of the six listed purpose identifiers maps to its fixed name; any other identifier maps to "Unknown Usage (" + oid + ")" |
| CertificateService.KnownUsageRoundTrip | backend/src/main/java/com/firmador/backend/service/CertificateService.java:139-151 | the name of a listed purpose reads back to its identifier |
| CertificateService.UnknownUsageRoundTrip | backend/src/main/java/com/firmador/backend/service/CertificateService.java:152-153 | the name of any other identifier reads back to that identifier |
| CertificateService.ExtendedUsageRoundTrip | backend/src/main/java/com/firmador/backend/service/CertificateService.java:138-155 | every identifier can be recovered from its name |
| CertificateService.MapExtendedKeyUsageInjective | backend/src/main/java/com/firmador/backend/service/CertificateService.java:138-155 | two identifiers with the same name are the same identifier |
| CertificateService.ExtendedNames | backend/src/main/java/com/firmador/backend/service/CertificateService.java:116-120 | one name per extended usage, in list order, each from `mapExtendedKeyUsage` |
| CertificateService.KeyUsagesOf | backend/src/main/java/com/firmador/backend/service/CertificateService.java:87-136 | the list of usages is never empty |
| CertificateService.KeyUsageLayout | backend/src/main/java/com/firmador/backend/service/CertificateService.java:87-136 | the basic names come first and the extended names after them; when both are empty the list is exactly "Digital Signature", "Non-Repudiation" |
| CertificateService.ExtractKeyUsages | backend/src/main/java/com/firmador/backend/service/CertificateService.java:87-136 | the two loops and the default give the list `KeyUsageLayout` describes |
| CertificateService.IssuerPartMeaning | backend/src/main/java/com/firmador/backend/service/CertificateService.java:181-194 | a `CN=` part is written as it is, an O, C, L, ST or OU part after ", ", and any other part is dropped |
| CertificateService.IssuerTextAppend | backend/src/main/java/com/firmador/backend/service/CertificateService.java:180-195 | the formatted text of two runs of parts is the concatenation of their texts, so parts are written in input order |
| CertificateService.IssuerTextDropsAll | backend/src/main/java/com/firmador/backend/service/CertificateService.java:180-195 | a name with no kept attribute formats to the empty text |
| CertificateService.FormatIssuerName | backend/src/main/java/com/firmador/backend/service/CertificateService.java:174-202 | the loop builds the formatted issuer the three lemmas above describe |
| CertificateService.TrustedWithinWindow | backend/src/main/java/com/firmador/backend/service/CertificateService.java:157-172 | trusted exactly when now lies in the validity window; a time before the window fails as not yet valid; a time after a well-formed window fails as expired |
| CertificateService.VersionText | backend/src/main/java/com/firmador/backend/service/CertificateService.java:43 | the version text is "v" followed by at least one character |
| CertificateService.VersionTextValue | backend/src/main/java/com/firmador/backend/service/CertificateService.java:43 | after the "v" comes the version number in decimal |
| CertificateService.CertificateInfoFacts | backend/src/main/java/com/firmador/backend/service/CertificateService.java:20-64 | failure exactly when the subject cannot be read, with the "Error al extraer información del certificado: " prefix; otherwise the flag is the validity window, the serial reads back from hex, the usages are non-empty, and subject and issuer are the certificate's names |
| CertificateService.ExtractCertificateInfo | backend/src/main/java/com/firmador/backend/service/CertificateService.java:20-64 | the information or the wrapped error that `CertificateInfoFacts` describes |
| DocumentStorage.Put | backend/src/main/java/com/firmador/backend/service/DocumentStorageService.java:13-16 | after a store the identifiers are the old ones plus the new one |
| DocumentStorage.Remove | backend/src/main/java/com/firmador/backend/service/DocumentStorageService.java:26-28 | after a removal the identifiers are the old ones minus the removed one |
| DocumentStorage.Lookup | backend/src/main/java/com/firmador/backend/service/DocumentStorageService.java:18-20 | a lookup finds a document exactly when the identifier is stored |
| DocumentStorage.LookupAfterPut | backend/src/main/java/com/firmador/backend/service/DocumentStorageService.java:13-20 | after a store the identifier finds exactly the stored document, and every other identifier finds what it found before |
| DocumentStorage.LookupAfterRemove | backend/src/main/java/com/firmador/backend/service/DocumentStorageService.java:18-28 | after a removal the identifier finds nothing, and every other identifier finds what it found before |
| DocumentStorage.PutReplaces | backend/src/main/java/com/firmador/backend/service/DocumentStorageService.java:13-16 | storing twice under one identifier keeps only the second document |
| DocumentStorage.RemoveUndoesPut | backend/src/main/java/com/firmador/backend/service/DocumentStorageService.java:13-28 | removing a document stored under a new identifier gives back the old table |
| DocumentStorage.DocumentStorageService.constructor | backend/src/main/java/com/firmador/backend/service/DocumentStorageService.java:11 | a new service holds no documents |
| DocumentStorage.DocumentStorageService.StoreDocument | backend/src/main/java/com/firmador/backend/service/DocumentStorageService.java:13-16 | the table becomes the old table with the document, stamped with the current time, under the identifier |
| DocumentStorage.DocumentStorageService.GetDocument | backend/src/main/java/com/firmador/backend/service/DocumentStorageService.java:18-20 | the answer is what the identifier finds in the table |
| DocumentStorage.DocumentStorageService.DocumentExists | backend/src/main/java/com/firmador/backend/service/DocumentStorageService.java:22-24 | true exactly when `getDocument` finds a document |
| DocumentStorage.DocumentStorageService.RemoveDocument | backend/src/main/java/com/firmador/backend/service/DocumentStorageService.java:26-28 | the table loses the identifier; removing an absent identifier changes nothing |
| SignatureController.LowerSuffix | backend/src/main/java/com/firmador/backend/controller/DigitalSignatureController.java:212-215 | a lowercased name ends with a lowercase extension exactly when the name ends with it ignoring case |
| SignatureController.CertificateFileByExtension | backend/src/main/java/com/firmador/backend/controller/DigitalSignatureController.java:205-216 | a certificate file is one with a name that ends, ignoring case, in .p12, .pfx or .pkcs12 |
| SignatureController.PdfFileByTypeOrName | backend/src/main/java/com/firmador/backend/controller/DigitalSignatureController.java:197-203 | a PDF is an upload whose content type is exactly application/pdf or whose name ends, ignoring case, in .pdf |
| SignatureController.LeftmostSuffixMatch | backend/src/main/java/com/firmador/backend/controller/DigitalSignatureController.java:90 | the leftmost position where `(\.[^.]*)?$` matches: a last dot or the end of the name |
| SignatureController.LeftmostMatchIsLastDot | backend/src/main/java/com/firmador/backend/controller/DigitalSignatureController.java:90 | the match starts at the last dot, or at the end when there is no dot |
| SignatureController.Insertion | backend/src/main/java/com/firmador/backend/controller/DigitalSignatureController.java:90 | inserting a text at a position keeps the name around it |
| SignatureController.SignedFilenameShape | backend/src/main/java/com/firmador/backend/controller/DigitalSignatureController.java:88-91 | "_signed" is inserted before the last extension, or appended when there is no dot; no name gives "signed_document.pdf" |
| SignatureController.SignResponseCases | backend/src/main/java/com/firmador/backend/controller/DigitalSignatureController.java:39-104 | an empty document is refused before an empty certificate, each with 400 and its message, without calling the service; otherwise the request carries the certificate and the server URL, and the answer is 200 with the signed PDF under the signed filename, or 500 with "Failed to sign document: " and the cause |
| SignatureController.DigitalSignatureController.SignDocument | backend/src/main/java/com/firmador/backend/controller/DigitalSignatureController.java:39-104 | the response is the one `SignResponseCases` describes |
| SignatureController.ValidationCases | backend/src/main/java/com/firmador/backend/controller/DigitalSignatureController.java:106-133 | a non-certificate name gets 400 without calling the service; "valid" is true exactly when the file is a certificate and the service reports it valid |
| SignatureController.DigitalSignatureController.ValidateCertificate | backend/src/main/java/com/firmador/backend/controller/DigitalSignatureController.java:106-133 | the response is the one `ValidationCases` describes |
| SignatureController.InfoCases | backend/src/main/java/com/firmador/backend/controller/DigitalSignatureController.java:135-163 | a non-certificate name gets 400 without calling the service; the information is included exactly when the service extracted it, and then the status is 200 |
| SignatureController.DigitalSignatureController.GetCertificateInfo | backend/src/main/java/com/firmador/backend/controller/DigitalSignatureController.java:135-163 | the response is the one `InfoCases` describes |
| SignatureController.DigitalSignatureController.HealthCheck | backend/src/main/java/com/firmador/backend/controller/DigitalSignatureController.java:165-172 | status 200 with exactly the status, message and timestamp fields: status "OK", message "Firmador Backend is running", and the clock reading as the timestamp |
| SignatureController.DownloadAfterStore | backend/src/main/java/com/firmador/backend/controller/DigitalSignatureController.java:174-195 | a stored document downloads with 200 and exactly its bytes; a removed one gives 404 with no body |
| SignatureController.DigitalSignatureController.DownloadDocument | backend/src/main/java/com/firmador/backend/controller/DigitalSignatureController.java:174-195 | the response is the download of what the storage table holds for the identifier |
| SignatureController.DigitalSignatureController.constructor | backend/src/main/java/com/firmador/backend/controller/DigitalSignatureController.java:33-37 | the controller keeps the signature service and the storage it is given |

## Left out

- I/O and system calls are parameters of the model, not modelled: the file system, `BCrypt*` SHA-256, `CryptSignHash`, `CertOpenSystemStore`, `PFXImportCertStore`, `CryptAcquireCertificatePrivateKey`, `InternetOpen`/`HttpSendRequest`/`InternetReadFile`, iText, BouncyCastle and the Java `KeyStore`. Each returns an arbitrary value chosen by the caller of the model.
- Releasing contexts and providers in CryptoAPI is recorded in two ghost counters of `CertificateManager.CertificateManager`; handle values are plain numbers.
- `CertGetNameString`, `FileTimeToSystemTime`/`FormatDateTime`, Kotlin and Java date formatting, the conversion to `LocalDateTime`, and the text of `GetLastWinInetError` are functions given to the model.
- Clock readings and the random request nonce are parameters. The delay of `Thread.sleep` between Android retries is left out. Whether the sleep is interrupted is a parameter, and an interrupted sleep ends the attempts on that server, as in the source. Restoring the thread's interrupt flag is not modelled.
- HTTP timeouts are left out. The transport parameter says how far a WinINet exchange got: the stage that failed, or the status and the chunks the read loop received.
- CertificateManager.CertificateManager.LoadCertificateFromFile: `PFXImportCertStore` is called with a null PFX blob (`windows/runner/crypto/certificate_manager.cpp:81-85`) and `filePath` only becomes an unused wide string (`:75`), so the file is never read. The parameter `imported` stands for whatever that call returns; the model does not relate it to `filePath`, and its success branch describes what the code would do with a store the call delivered.
- PdfSigner.PdfSigner.SignPdf: the `catch` that reports "Exception: " followed by `what()` (`windows/runner/crypto/pdf_signer.cpp:83-86`, and `:132-135` in `SignPdfFromMemory`) is not modelled. Only exceptions thrown by the C++ library can reach it. Three are possible: a failed allocation; the `std::system_error` that the `std::random_device` built in `CreateTSARequest` may throw (`windows/runner/crypto/tsa_client.cpp:131`, called outside any `try` at `:35`); and the `std::length_error` of the buffer in `ReadPdfFile` when `tellg()` fails and returns -1 (`windows/runner/crypto/pdf_signer.cpp:189-192`). None of them is modelled.
- PdfSigner.PdfSigner.SignPdf: `ValidatePdf` reads the file a second time (`windows/runner/crypto/pdf_signer.cpp:34` and `:172-181`). The model reads through one pure function, so both reads see the same bytes; a file that changes between the two reads is not modelled.
- AndroidSignatureService.OutputPath: `java.io.File` normalises paths (repeated and trailing separators, platform separators); the model splits the path as given, on `/`.
- Floating-point `SignaturePosition` fields and the signature box of the Android request are left out: no output byte depends on them. `GetPageDimensions` returns its fixed 612 by 792 page size.
- Parsing an X.500 name into attributes (`X500Principal`, BouncyCastle `X500Name`) is a parameter. Parsing the issuer name in the backend is a split on commas, as in the source.
- Thread safety of the backend's `ConcurrentHashMap` is left out; the table is modelled as a sequential map. Null identifiers (which the map rejects) are not modelled.
- Character case mapping (`toLowerCase`, `toUpperCase`, `uppercase`) is ASCII only; other characters are left unchanged.
- Kotlin's `String.hashCode` works on UTF-16 code units; the model hashes the characters of the string as given.
- `std::stoul` on a thumbprint chunk: a blank or `+` followed by a hex digit, a `-` followed by a hex digit (negated modulo 2^32), and a chunk "0x" are decoded the way `stoul` decodes them. Only a chunk with no hex digit after the optional blank or sign makes `stoul` throw. That throw becomes a failed load, and the `what()` text of the exception is a fixed constant because the library defines it.
- The backend's `signPdf` call on `DigitalSignatureService` does not exist in that class; the signing call of the controller is a parameter that returns the signed bytes or the message of the exception.
- `DigitalSignatureService.java`, the Android `loadKeyStore`, `getPrivateKey`, `getCertificateChain`, `validateCertificate` and `isCertificateValid` wrappers, and the DTOs are not part of this model beyond the fields the modelled code reads and writes.
- The Flutter method-channel bridges (`native_crypto_plugin.cpp`, `MainActivity.kt`, the iOS and macOS `AppDelegate.swift`) and the build files are not part of this model.
- SignatureController.SignedFilenameShape: Java's `$` also matches before a final line terminator; the model treats `$` as the end of the name only, so a name that ends in a line break is not modelled.
- The `Content-Disposition` header is built from the stored filename with no escaping, as in the source; Spring's own header handling is not modelled.
- CertificateService.ExtractCommonName: the `catch` that returns "N/A" cannot be reached without a null name, and null names are not modelled; the same holds for the `catch` of `formatIssuerName`.
- CertificateService.BasicUsages: its own `ensures` only says there are no names without a key-usage array; the full characterisation is in `BasicUsageNaming`.
- The backend's `MultipartFile.getBytes` and its `IOException` are folded into the signing parameter of the controller.
