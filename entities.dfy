/**
 * The records the action creators build and dispatch, the application state
 * they read through `getState()`, and the foreign capabilities they call.
 */
module Entities {
  import opened Wrappers
  import opened Js

  /** A JavaScript number used as an identifier. */
  type Num = real

  /** A `Date.now() + Math.random()` or `Math.random()` identifier: always a positive number. */
  type Stamp = r: real | r > 0.0 witness 1.0

  /** Opaque handles to objects owned by the PKI library. */
  datatype PkiHandle = PkiHandle(ref: nat)
  datatype KeyHandle = KeyHandle(ref: nat)
  datatype ChainHandle = ChainHandle(ref: nat)
  datatype CmsHandle = CmsHandle(ref: nat)
  datatype TrustedCollection = TrustedCollection(ref: nat)
  datatype SocketHandle = SocketHandle(ref: nat)
  datatype LicenseStatus = LicenseStatus(ref: nat)

  datatype DataFormat = DER | PEM

  /** The properties of a `trusted.pki.Certificate` the action creators read (dates in milliseconds). */
  datatype Certificate = Certificate(
    thumbprint: string,
    subjectFriendlyName: string,
    subjectName: string,
    issuerFriendlyName: string,
    issuerName: string,
    notBefore: int,
    notAfter: int,
    organizationName: string,
    publicKeyAlgorithm: string,
    serialNumber: string,
    signatureAlgorithm: string,
    signatureDigestAlgorithm: string)

  /** A file of the file registry (`IFile`). */
  datatype FileEntry = FileEntry(
    id: Num,
    filename: string,
    lastModifiedDate: int,
    fullpath: string,
    extension: string,
    size: int,
    active: bool,
    extra: Json,
    remoteId: Option<string>,
    socket: Option<string>)

  /** A produced artifact waiting to become a file entry (`IFilePath`). */
  datatype FilePath = FilePath(fullpath: string, extra: Json, remoteId: Option<string>, socket: Option<string>)

  /** The record `selectFile` puts in its payload (the file id is generated later). */
  datatype SelectedFile = SelectedFile(extension: string, filename: string, fullpath: string, lastModifiedDate: int, size: int)

  /** What `fs.statSync` reports. */
  datatype Stat = Stat(birthtime: int, size: int)

  /** One signer as `signs.getSignPropertys` reports it; `certs` ends with the signer's own certificate. */
  datatype SignerInfo = SignerInfo(subject: string, certs: seq<Certificate>)

  /** `INormalizedSignInfo`, the signer record sent with an upload. */
  datatype NormalizedSignInfo = NormalizedSignInfo(
    subjectFriendlyName: string,
    issuerFriendlyName: string,
    notBefore: int,
    notAfter: int,
    digestAlgorithm: string,
    signingTime: int,
    subjectName: string,
    issuerName: string)

  /** `{fileId, ...info, id}`: a verified signer tagged with its file. */
  datatype VerifiedSigner = VerifiedSigner(fileId: Num, info: SignerInfo, id: Num)

  /** The `signatureInfo` variable of `verifySignature` when it is dispatched: `undefined`, or the tagged signers. */
  datatype SignatureInfo =
    | InfoUndefined
    | TaggedInfo(tagged: seq<VerifiedSigner>)

  /** What a throwing step raises, as far as the action creators tell the cases apart. */
  datatype Thrown =
    | FileUndefined           // TypeError: reading `fullpath` of an unknown file
    | LoadSignFailed          // signs.loadSign threw
    | DetachedContentMissing  // the thrown "err" after a falsy re-attach
    | VerifySignFailed        // signs.verifySign threw
    | SignPropertiesFailed    // signs.getSignPropertys threw

  /** The outcome of a sequence of calls that may throw. */
  datatype Outcome<+T> = Ok(value: T) | Threw(error: Thrown)

  /** An item of the PKI store; an `id` of 0 is falsy (never assigned). */
  datatype PkiItem = PkiItem(id: Num, kind: string, provider: string, hash: string)

  /** A container as `Csp.enumContainers` lists it. */
  datatype RawContainer = RawContainer(container: string, unique: string, fqcnA: string)

  /** A container of the container listing. */
  datatype Container = Container(friendlyName: string, id: Num, name: string, reader: string)

  /** The display record `getCertificateFromContainer` builds; `subjectName` is always `null`. */
  datatype CertificateItem = CertificateItem(
    hash: string,
    issuerFriendlyName: string,
    key: string,
    notAfter: int,
    organizationName: string,
    publicKeyAlgorithm: string,
    serial: string,
    signatureAlgorithm: string,
    signatureDigestAlgorithm: string,
    subjectFriendlyName: string,
    subjectName: Option<string>)

  /** A remote connection of the connection registry. */
  datatype Connection = Connection(connected: bool, socket: Option<SocketHandle>)

  /** The arguments `packageSign` hands to every `signFile` call. */
  datatype SignRequest = SignRequest(cert: PkiHandle, key: KeyHandle, policies: seq<string>, format: DataFormat, folderOut: string)

  /** The action records (`type` and `payload`) the action creators dispatch or return. */
  datatype Action =
    | LoadLicenseStart
    | LoadLicenseSuccess(data: string, lic: Json)
    | LoadLicenseFail
    | PackageSignStart
    | PackageSignSuccess(packageSignResult: bool)
    | PackageSelectFileStart
    | PackageSelectFileSuccess(filePackage: seq<FileEntry>)
    | PackageDeleteFile(deletedIds: seq<Num>)
    | VerifyLicense(licenseStatus: LicenseStatus)
    | LoadAllCertificatesStart
    | LoadAllCertificatesSuccess(certs: seq<PkiItem>)
    | RemoveAllCertificates
    | ChangeSearchValue(searchValue: string)
    | VerifyCertificate(certificateId: Num, certificateStatus: bool)
    | SelectSignerCertificate(selected: Num)
    | LoadAllContainersStart
    | LoadAllContainersFail
    | LoadAllContainersSuccess(containers: seq<Container>)
    | RemoveAllContainers
    | GetCertificateFromContainerStart(container: Num)
    | GetCertificateFromContainerSuccess(container: Num, certificate: Certificate, certificateItem: CertificateItem)
    | ActiveContainer(container: Num)
    | SelectFile(file: SelectedFile)
    | ActiveFile(fileId: Num, isActive: bool)
    | DeleteFile(fileId: Num)
    | VerifySignatureFail(error: Thrown, fileId: Num)
    | VerifySignatureSuccess(fileId: Num, signatureStatus: bool, signatureInfo: SignatureInfo)
    | ChangeSignatureEncoding(encoding: string)
    | ChangeSignatureDetached(detached: bool)
    | ChangeSignatureTimestamp(timestamp: bool)
    | ChangeSignatureOutfolder(outfolder: string)
    | ChangeEncryptEncoding(encoding: string)
    | ChangeDeleteFilesAfterEncrypt(del: bool)
    | ChangeArchiveFilesBeforeEncrypt(archive: bool)
    | ChangeEncryptOutfolder(outfolder: string)
    | AddRecipientCertificate(certId: Num)
    | DeleteRecipient(recipient: Num)
    | ChangeLocale(locale: string)
  {
    /** The actions that carry `generateId: true` for the reducer. */
    predicate GeneratesId() {
      SelectFile? || VerifySignatureSuccess? || AddRecipientCertificate?
    }
  }

  /** The multipart form posted for a signed file of a remote document. */
  datatype Upload = Upload(extra: Json, file: string, id: Option<string>, signers: seq<NormalizedSignInfo>)

  /** The payload of a socket notification. */
  datatype Notice = FilesSigned(fullpath: string) | SignatureVerified(signers: seq<SignerInfo>)

  /** One observable step: a dispatched action, a socket `emit`, or an HTTP upload request. */
  datatype Effect =
    | Dispatched(action: Action)
    | Emitted(socket: SocketHandle, event: string, notice: Notice)
    | Posted(url: string, form: Upload)

  const FilesSignedEvent := "files signed"
  const SignatureVerifiedEvent := "signature verified"
  const UploadUrl := "https://bitrix.tsumo.org/bitrix/components/trustednet/trustednet.docs/ajax.php?command=upload"

  /** The CSP provider type both container calls pass. */
  const ProviderType := 75

  /** The connection registered under `key` exists, is connected and has a socket. */
  predicate Live(connections: map<string, Connection>, key: string) {
    key in connections && connections[key].connected && connections[key].socket.Some?
  }

  /**
   * `connections.getIn(["entities", key])` followed by `connection && connection.connected && connection.socket`:
   * the notification reaches the socket of a live connection, and nothing happens otherwise.
   */
  function Notify(connections: map<string, Connection>, key: string, event: string, notice: Notice): seq<Effect> {
    if Live(connections, key)
    then [Emitted(connections[key].socket.value, event, notice)]
    else []
  }

  /** Dispatching each action of a sequence, in order. */
  function Dispatches(actions: seq<Action>): seq<Effect> {
    seq(|actions|, k requires 0 <= k < |actions| => Dispatched(actions[k]))
  }

  /** The slice of the store `getState()` returns that the action creators read. */
  datatype AppState = AppState(
    connections: map<string, Connection>,
    certificates: map<Num, PkiItem>,
    containers: map<Num, Container>,
    files: map<Num, FileEntry>)

  /**
   * The foreign capabilities, as uninterpreted functions. `None` means the
   * call threw (or, for `setDetachedContent`, returned something falsy);
   * an empty path from `signFile` is its falsy result.
   */
  datatype Host = Host(
    // fs
    licenseFile: Option<string>,
    statSync: string -> Option<Stat>,
    extFile: string -> string,
    basename: string -> string,
    // Buffer/base64 decoding followed by JSON.parse
    decodeClaims: string -> Option<Json>,
    // signs.*
    signFile: (string, SignRequest) -> string,
    loadSign: string -> Option<CmsHandle>,
    isDetached: CmsHandle -> bool,
    setDetachedContent: (CmsHandle, string) -> Option<CmsHandle>,
    verifySign: CmsHandle -> Option<bool>,
    getSignPropertys: CmsHandle -> Option<seq<SignerInfo>>,
    // trusted.pki / trusted.utils.Csp / the PKI store
    storeItems: seq<PkiItem>,
    trustedCerts: TrustedCollection,
    getPkiObject: Option<PkiItem> -> Option<PkiHandle>,
    buildChain: (PkiHandle, TrustedCollection) -> Option<ChainHandle>,
    verifyChain: ChainHandle -> Option<bool>,
    cspVerifyCertificateChain: PkiHandle -> Option<bool>,
    enumContainers: int -> Option<seq<RawContainer>>,
    getCertificateFromContainer: (string, int) -> Option<Certificate>,
    checkLicense: string -> LicenseStatus,
    // clock and random identifiers
    now: int,
    freshId: nat -> Stamp)
}
