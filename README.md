# CryptoARM GOST action creators, modelled in Dafny

This project models the action-creator module `app/AC/index.ts` of CryptoARM GOST,
an Electron desktop application for signing files with GOST certificates.
Each action creator either builds a plain Redux action record or is a thunk.
Most thunks dispatch `… + START`, defer their work with `setTimeout(…, 0)`, and then
dispatch `SUCCESS` and/or `FAIL`. Three thunks dispatch at once, with no START and no timer:
`verifyLicense` (app/AC/index.ts:242-251), `verifyCertificate` (app/AC/index.ts:302-326) and
`verifySignature` (app/AC/index.ts:457-503).

The model has these parts:

- **Trace and timers.** `ActionCreators.Dispatcher` is a class with two fields.
  `trace` is an append-only sequence of effects: dispatched actions, socket `emit`s and HTTP uploads.
  `timers` is the first-in first-out queue of pending `setTimeout` callbacks.
  Each thunk method appends its immediate effects and defers a `Task`.
  `RunNextTimer` runs the oldest task against the state `getState()` returns at that time.
- **Foreign calls.** Every PKI, CMS, CSP, file-system, decoding, clock and random call is a field of the `Entities.Host` record. Socket `emit`s and HTTP uploads are effects in the trace, and `getIn` is a map lookup; the other calls (`JSON.stringify`, `alert`, `console.log`, the test-certificate import) are listed under "## Left out".
  A call the model lets throw returns `None`; the calls assumed not to throw are listed under "## Left out".
- **Loops.** Each `forEach`, `for…of` and `filter` loop of the source is a method proved equal to a function of the prefix it has processed:
  - the `packageSign` loop: `Signing.SignFiles`;
  - the signer normalization: `Signing.NormalizeSignerInfos`;
  - the container listing: `Containers.FilterContainers`;
  - the file-package build: `Files.BuildFilePackage`;
  - the in-place identifier pass over the store's item array: `Certificates.AssignIdsAndFilter`.

  The `signatureInfo.map` of `verifySignature` (app/AC/index.ts:484-489) has no loop state; it is the sequence comprehension `Verification.Tagged`.
- **Properties.** Lemmas state the properties against independent reference definitions:
  - front-to-back filters;
  - layouts of the license text;
  - the membership of effects.
- **Plain creators.** `activeFile` with its default flag is `Files.ActiveFileAction`.
  The other plain creators (`filePackageDelete`, `deleteFile`, `activeContainer`, `selectSignerCertificate`, the `change…` family, `addRecipientCertificate` with its `generateId`) are the constructors of `Entities.Action`.
- **JavaScript semantics.** The JavaScript string and value rules the code relies on are written out in module `Js`:
  - `split` with a one-character separator;
  - `indexOf` and `lastIndexOf`;
  - `substring`, which clamps its bounds and swaps them when they are reversed;
  - `toLowerCase`, with only ASCII letters mapped;
  - truthiness;
  - property access on `null`.

Behaviours of the code worth knowing, each of which the model keeps:

- **License decode error.** When decoding the license claims throws, `loadLicense` dispatches `LOAD_LICENSE + FAIL` twice: once in the `catch` (app/AC/index.ts:51-55) and once at the end, because `lic` stays unset (app/AC/index.ts:59-69).
- **Two-segment license.** A token `header.claims` without a signature segment is accepted when its claims are. The code reads only `splitLicense[1]` (app/AC/index.ts:40-42) and never looks at a third segment.
- **When a signed file is uploaded.** The post-processing of a signed file happens when the file has a truthy `socket`, not when it has a `remoteId` (app/AC/index.ts:130). It covers the notice, the re-reading of the signature and the upload.
- **Failed re-attach or unreadable signature.** Inside the `packageSign` loop this throws out of the `forEach` and the timer callback (app/AC/index.ts:139-141), so no `PACKAGE_SIGN + SUCCESS` follows and the callback defers nothing.
- **Container enumeration failure.** `loadAllContainers` dispatches `FAIL`, and the following `for…of` over `undefined` throws before `SUCCESS` (app/AC/index.ts:342-370).
- **The "registry" rule.** The rule looks only at the first occurrence of "registry" (app/AC/index.ts:356). A name whose first occurrence is at position 0 is kept, even when "registry" occurs again later.
- **A name with no backslash at or after position 4.** `substring` swaps its bounds, so the reader is a piece of the first four characters (app/AC/index.ts:361).

## Model

| member | source | states |
|---|---|---|
| `Js.Split` | app/AC/index.ts:40 | `split(".")` yields at least one part and no part contains the separator |
| `Js.JoinSplit` | app/AC/index.ts:40 | joining the parts `split` returns with the separator gives back the original text |
| `Js.SplitJoin` | app/AC/index.ts:40 | splitting a join of separator-free parts gives back those parts |
| `Js.IndexOf` | app/AC/index.ts:356 | `indexOf` is -1 exactly when the pattern never occurs, otherwise its first occurrence |
| `Js.LastIndexOf` | app/AC/index.ts:361 | `lastIndexOf("\\")` finds the last backslash, or -1 when there is none |
| `Js.Substring` | app/AC/index.ts:361 | `substring(start, end)`: both bounds clamped to the text, swapped when the first is past the second; `Containers.ReaderBetweenPrefixAndLastSeparator` and `Containers.ReaderWithoutLateSeparator` state the two cases |
| `Js.ToLower` | app/AC/index.ts:356 | `toLowerCase` character by character, keeping the length, with ASCII capitals mapped to small letters |
| `License.ClaimsSegmentSpec` | app/AC/index.ts:40-42 | the second split segment is exactly the text between the first dot and the next dot or the end |
| `License.ClaimsSegment` | app/AC/index.ts:40-42 | `data.split(".")[1]`, undefined when the text has no dot; `ClaimsSegmentSpec` states where it lies in the text |
| `License.ClaimsTruthySpec` | app/AC/index.ts:47-48 | the claim test throws exactly on `null` and passes exactly for an object whose six claims are all truthy |
| `License.ClaimsTruthy` | app/AC/index.ts:47-48 | the `&&` chain over the six claims, read left to right, stopping at the first falsy one and throwing on `null`; `ClaimsTruthySpec` states its outcome |
| `License.LoadLicenseBody` | app/AC/index.ts:35-69 | the callback dispatches one or two events, and every event before the last is FAIL |
| `License.LicenseAccepted` | app/AC/index.ts:39-66 | SUCCESS with `{data, lic}` exactly when the text is non-empty, its second segment is non-empty and decodes to `lic`, and all six claims of `lic` are truthy |
| `License.LicenseRejected` | app/AC/index.ts:59-69 | the last event is FAIL exactly when the file is missing or no claim set is acceptable |
| `License.LicenseDoubleFail` | app/AC/index.ts:43-69 | FAIL is dispatched twice exactly when decoding throws or reading a claim of `null` throws |
| `License.SignatureIgnored` | app/AC/index.ts:40-49 | acceptance does not depend on the token's signature segment |
| `Containers.FilterContainers` | app/AC/index.ts:353-364 | the `for…of` loop builds the listing of the enumeration |
| `Containers.Listing` | app/AC/index.ts:353-364 | the listing entry by entry, the k-th kept container taking the k-th random id; `ListingSpec` states its contents |
| `Containers.ListingSpec` | app/AC/index.ts:355-364 | the listing is the kept containers in enumeration order, the k-th with display name, unique name, reader and the k-th random id |
| `Containers.KeptEntriesMembers` | app/AC/index.ts:355-357 | a container is listed exactly when it was enumerated and passes the registry rule |
| `Containers.KeptRule` | app/AC/index.ts:356 | kept exactly when lower-cased "registry" is absent or first occurs at position 0 |
| `Containers.ReaderBetweenPrefixAndLastSeparator` | app/AC/index.ts:361 | with a backslash at or after position 4, the reader is the text from position 4 to the last backslash |
| `Containers.ReaderWithoutLateSeparator` | app/AC/index.ts:361 | otherwise `substring` swaps its bounds and the reader is a piece of the first four characters |
| `Containers.RegistryInsideIsDropped` | app/AC/index.ts:356 | `\\.\Reader\SomeRegistryThing` is dropped |
| `Containers.RegistryAtStartIsKept` | app/AC/index.ts:356 | `Registry\Foo` is kept |
| `Containers.ReaderOfHardwareContainer` | app/AC/index.ts:361 | the reader of `\\.\HDIMAGE\key` is `HDIMAGE` |
| `Containers.CertificateFromContainerSpec` | app/AC/index.ts:387-408 | SUCCESS carries the provider's certificate for the container's unique name, and a display item with hash = thumbprint, serial = serial number, key "1" and no subject name; nothing when the container is unknown or the provider throws |
| `Containers.CertificateFromContainerBody` | app/AC/index.ts:387-408 | the deferred body of `getCertificateFromContainer`: one SUCCESS with the certificate and its display item, or nothing when the callback throws |
| `Certificates.AssignIdsAndFilter` | app/AC/index.ts:274-279 | the `filter` callback gives ids in place to the items that lack one and returns the certificates |
| `Certificates.AssignIds` | app/AC/index.ts:275-277 | the store items after the id pass, the i-th drawing the i-th fresh id when it has none; `AssignIdsSpec` states it item by item |
| `Certificates.CertificatesOf` | app/AC/index.ts:274-279 | the CERTIFICATE items in store order; `CertificatesOfMembers` and `CertificatesOfAppend` state membership and order |
| `Certificates.AssignIdsSpec` | app/AC/index.ts:275-277 | an existing id is kept, a missing one is replaced by a fresh one, and nothing else about the item changes |
| `Certificates.AssignIdsIdempotent` | app/AC/index.ts:275-277 | a second pass reassigns no id |
| `Certificates.CertificatesOfAppend` | app/AC/index.ts:274-279 | the certificate subset keeps store order |
| `Certificates.CertificatesOfMembers` | app/AC/index.ts:274-279 | an item is dispatched exactly when it is a store item of type CERTIFICATE |
| `Certificates.LoadedCertificatesHaveIds` | app/AC/index.ts:274-283 | every dispatched certificate has an id and comes from the store |
| `Certificates.VerifyCertificateSpec` | app/AC/index.ts:302-325 | at most one VERIFY_CERTIFICATE, for the given id; its status is true exactly when the entry exists and its provider's algorithm trusts it |
| `Certificates.CertificateStatus` | app/AC/index.ts:308-320 | the `certificateStatus` of the `try` block: the system chain check or the CSP check by provider, false on any throw or unknown id |
| `Certificates.VerifyCertificateEvents` | app/AC/index.ts:302-326 | nothing when `getPkiObject` throws outside the `try`, otherwise one VERIFY_CERTIFICATE with the status |
| `Certificates.ChainBuildFailureIsUntrusted` | app/AC/index.ts:310-320 | a system certificate whose chain cannot be built is untrusted, and no error escapes |
| `Signing.OpenSignatureSpec` | app/AC/index.ts:136-142 | a signature opens exactly when it loads and, when detached, its content re-attaches |
| `Signing.OpenSignature` | app/AC/index.ts:136-142 | `loadSign`, then re-attaching the content when detached, with a falsy re-attach thrown |
| `Signing.NormalizedSpec` | app/AC/index.ts:146-161 | normalization succeeds exactly when every signer has a certificate, and gives one record per signer, in order, from that signer's last certificate |
| `Signing.Normalized` | app/AC/index.ts:146-161 | the normalized signer records, signer by signer, undefined (a throw) when a signer has no certificate |
| `Signing.NormalizeSignerInfos` | app/AC/index.ts:146-161 | the `forEach` over the signers computes the normalization |
| `Signing.ReadSigners` | app/AC/index.ts:136-161 | opening the new signature and normalizing its signers |
| `Signing.SignersOf` | app/AC/index.ts:136-161 | the normalized signers of a new signature, or a throw from opening, reading or normalizing it |
| `Signing.SignFiles` | app/AC/index.ts:117-184 | the `forEach` over the files computes the loop's outcome, stopping at a throw |
| `Signing.SignStep` | app/AC/index.ts:124-178 | one call of the `forEach` callback: sign, record the id and path, notify, read the signers and upload; nothing once the loop has thrown |
| `Signing.SignAll` | app/AC/index.ts:124-184 | the whole `forEach`, file by file; `SignAllSpec`, `SignAllThrows` and `ThrownIsFinal` state its outcome |
| `Signing.ThrownIsFinal` | app/AC/index.ts:124-184 | after a throw, no later file is signed |
| `Signing.SignAllDispatchesNothing` | app/AC/index.ts:124-184 | the loop itself only notifies and uploads |
| `Signing.SignAllThrows` | app/AC/index.ts:136-149 | the loop throws exactly when a signed file of a remote document has a signature that cannot be read |
| `Signing.SignAllLists` | app/AC/index.ts:125-128 | the two lists hold exactly the successful files' ids, and their new paths with extra, remoteId and socket, in order |
| `Signing.SignAllResult` | app/AC/index.ts:117-127 | `packageSignResult` is true exactly when every `signFile` call returned a path |
| `Signing.SignAllEffects` | app/AC/index.ts:130-178 | what the loop does outside is every file's notice and upload, in order |
| `Signing.SignAllSpec` | app/AC/index.ts:117-184 | the four statements above together |
| `Signing.PublicationsSound` | app/AC/index.ts:130-178 | "files signed" goes only to the live connection of a signed file's socket; an upload only carries a signed file of a remote document, with its extra data, remote id and signers |
| `Signing.PublicationsComplete` | app/AC/index.ts:130-178 | every signed file of a remote document notifies its live connection and is uploaded when its signature can be read |
| `Files.SelectFileSpec` | app/AC/index.ts:420-441 | throws exactly when stat is needed and fails; otherwise given values are used and stat fills in the rest, and the action asks for an id |
| `Files.SelectFileAction` | app/AC/index.ts:420-441 | the SELECT_FILE action `selectFile` returns, or the throw of `statSync` when it is needed |
| `Files.SelectFileWithoutStat` | app/AC/index.ts:423-425 | with a date and a non-zero size given, the file system is not consulted |
| `Files.BuildFilePackage` | app/AC/index.ts:204-225 | the `forEach` computes the package |
| `Files.SelectedPackage` | app/AC/index.ts:204-225 | the file package artifact by artifact, undefined when a `statSync` throws; `SelectedPackageSpec` states its contents |
| `Files.SelectedPackageSpec` | app/AC/index.ts:204-225 | built exactly when every artifact can be statted; one active entry per artifact, in order, with its path, extra, remoteId, socket, status and the k-th id |
| `Files.ActiveFileAction` | app/AC/index.ts:443-448 | an omitted `isActive` activates the file |
| `Verification.VerifySignatureOutline` | app/AC/index.ts:457-503 | always exactly one SUCCESS for the file, last; FAIL for the file right before it exactly when the try block threw |
| `Verification.VerifySignatureStatus` | app/AC/index.ts:461-475 | the status is true exactly when the signature opened and `verifySign` returned true, even if reading the signers then threw |
| `Verification.VerifySignatureSigners` | app/AC/index.ts:484-489 | the signer list is defined exactly when verification completed, and then holds every signer in order, tagged with the file id and a drawn id |
| `Verification.VerifySignatureNotice` | app/AC/index.ts:477-482 | "signature verified" goes only to the live connection of a remote document, with the untagged signers |
| `Verification.Tagged` | app/AC/index.ts:484-489 | every signer tagged with the file id and the k-th drawn id, in order |
| `Verification.VerifySignatureEffects` | app/AC/index.ts:457-503 | everything `verifySignature` does in order: the notice and SUCCESS, or FAIL and SUCCESS after a throw; the four lemmas above state its meaning |
| `ActionCreators.Dispatcher.LoadLicense` | app/AC/index.ts:23-29 | START now, the license check deferred |
| `ActionCreators.Dispatcher.PackageSign` | app/AC/index.ts:112-119 | START now, the signing deferred |
| `ActionCreators.Dispatcher.FilePackageSelect` | app/AC/index.ts:197-203 | START now, the package deferred |
| `ActionCreators.Dispatcher.VerifyLicense` | app/AC/index.ts:242-251 | dispatches the status the license checker returns |
| `ActionCreators.Dispatcher.LoadAllCertificates` | app/AC/index.ts:253-259 | START now, the load deferred |
| `ActionCreators.Dispatcher.VerifyCertificate` | app/AC/index.ts:302-326 | dispatches the events of the trust decision |
| `ActionCreators.Dispatcher.LoadAllContainers` | app/AC/index.ts:336-342 | START now, the enumeration deferred |
| `ActionCreators.Dispatcher.GetCertificateFromContainer` | app/AC/index.ts:380-387 | START with the container now, the lookup deferred |
| `ActionCreators.Dispatcher.VerifySignature` | app/AC/index.ts:457-503 | the try block with its status and signer variables performs the verification effects |
| `ActionCreators.Dispatcher.RunLoadLicense` | app/AC/index.ts:29-70 | the callback with its local variables dispatches the license events |
| `ActionCreators.Dispatcher.RunPackageSign` | app/AC/index.ts:119-193 | the loop's effects, then SUCCESS, the selection and the deletion, unless the loop threw |
| `ActionCreators.Dispatcher.RunFilePackageSelect` | app/AC/index.ts:203-231 | SUCCESS with the package, or nothing when a stat throws |
| `ActionCreators.Dispatcher.RunLoadAllCertificates` | app/AC/index.ts:259-285 | ids assigned in the store's item array, then SUCCESS with the certificates |
| `ActionCreators.Dispatcher.RunLoadAllContainers` | app/AC/index.ts:342-370 | FAIL when enumeration throws, otherwise SUCCESS with the listing |
| `ActionCreators.Dispatcher.RunNextTimer` | app/AC/index.ts:29-408 | the oldest pending `setTimeout` callback runs and leaves the queue; its effects are appended and the callbacks it defers join the queue behind the rest |
| `ActionCreators.PackageSignRun` | app/AC/index.ts:112-193 | START is first in the trace, and everything the signing does comes after it |
| `ActionCreators.TimerEffects` | app/AC/index.ts:29-408 | what each deferred callback does, in order, stopping where it throws |
| `ActionCreators.TimersScheduled` | app/AC/index.ts:189 | the callbacks a callback defers: only `packageSign` does, handing its signed files to `filePackageSelect` |
| `ActionCreators.PackageSignTimerSpec` | app/AC/index.ts:117-193 | a throw leaves nothing dispatched or deferred; otherwise the notices and uploads are followed by SUCCESS (all signed), the selection of the new files and the deletion of exactly the signed sources |
| `ActionCreators.SignedFilesReturnToRegistry` | app/AC/index.ts:126-128 | the signed files come back from `filePackageSelect` as active entries, one per signed source, in order, with the source's extra data, remote id and socket |
| `ActionCreators.LoadAllContainersTimerSpec` | app/AC/index.ts:342-370 | one event: FAIL exactly when enumeration throws, otherwise SUCCESS with the listing of the kept containers |
| `ActionCreators.LoadAllCertificatesTimerSpec` | app/AC/index.ts:259-285 | always one SUCCESS; a certificate is in it exactly when it is a CERTIFICATE item of the store after the id pass; each has an id |

## Left out

- File system:
  - `fs.existsSync`/`readFileSync` become the license text `Host.licenseFile`;
  - `fs.statSync` becomes `Host.statSync`;
  - `extFile` and `path.basename` are uninterpreted.
- Base64 decoding and `JSON.parse` of the claims segment are one partial decoder, `Host.decodeClaims`.
- The PKI, CMS and CSP calls (`trusted.*`, `signs.*`, `jwt.checkLicense`) are uninterpreted functions.
  Those whose result is an `Option` may throw; the value a call throws is only told apart where the code dispatches it.
- Some foreign calls are assumed never to throw; the model has no way to express a throw from them:
  - `Host.signFile` (`signs.signFile`, app/AC/index.ts:125) reports failure only through a falsy path. A throw from it would escape the `forEach` and the callback, leaving no `PACKAGE_SIGN + SUCCESS`, no selection and no deletion; the model does not capture that run.
  - `Host.isDetached` (`cms.isDetached()`, app/AC/index.ts:138 and 468) is total.
  - `Host.checkLicense` (`jwt.checkLicense`, app/AC/index.ts:244) is total. A throw from it would dispatch nothing.
  - `Host.licenseFile` is the file's text when it exists. A `readFileSync` that throws on an existing file (app/AC/index.ts:36, outside the `try`) would leave only START dispatched; the model does not capture that run.
  - `extFile` and `path.basename` (`Host.extFile`, `Host.basename`, app/AC/index.ts:209-215 and 427-430) are total.
- The test-certificate import of `loadAllCertificates` and its `alert` are not modelled.
  The store's items after the import attempt are `Host.storeItems`, whether or not the import failed.
- The publication of the store in `window.PKISTORE`, `window.TRUSTEDCERTIFICATECOLLECTION` and `window.PKIITEMS` is not modelled.
  The ids written into the item array are therefore not visible after the callback.
- The HTTP upload is recorded as a `Posted` effect carrying its form fields; the request callback only logs, and `console.log` is not modelled.
  The socket `emit`s are recorded as `Emitted` effects.
  `JSON.stringify` of the form fields is not modelled; the fields are kept as values.
- The clock and random identifiers:
  - `Date.now()` is one value `Host.now` for a whole callback;
  - `Date.now() + Math.random()` and `Math.random()` are `Host.freshId(k)`, a positive number drawn for the k-th item of a list;
  - `Math.random()` for a container id (app/AC/index.ts:359) can return 0, while `Host.freshId` is always positive. No lemma relies on a container id being positive;
  - the model does not state that identifiers differ from each other, because the source does not ensure it.
- Dates are whole milliseconds, so `new Date(x).getTime()` is the identity, and `lastModifiedDate` is a number rather than a `Date`.
- The reducers that consume the actions, and the `getIn` lookups on Immutable maps, are not modelled. The lookups become `map` membership.
- The action constructors with their payloads stand for the plain creators. `Action.GeneratesId` marks the actions that carry `generateId: true`.
- `Js.ToLower`: `toLowerCase` is modelled on ASCII letters only, while JavaScript lowercases all of Unicode.
  Any "registry" that JavaScript's lowering finds is made of ASCII letters of the original name, so the keep-or-drop decision is the same. For example, U+0130 lowercases to "i" followed by the combining dot U+0307, which breaks the run.
- Strings are sequences of code points, while `substring` and `lastIndexOf` count UTF-16 code units.
  A position is still -1, 0 or above 0 in both, so the "registry" rule is unchanged.
  Only the reader of a name with a character outside the Basic Multilingual Plane before its last backslash can differ.
