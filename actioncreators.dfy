/**
 * The action creators as the Redux store runs them. A thunk dispatches
 * through `dispatch`, whose effects go to an append-only trace, and defers its
 * main work with `setTimeout(…, 0)`, modelled as a first-in first-out queue of
 * pending callbacks that `RunNextTimer` runs one at a time against the state
 * `getState()` returns at that moment. The plain creators (`activeFile`,
 * `deleteFile`, `filePackageDelete`, the `change…` family and the like) are the
 * `Action` constructors themselves.
 */
module ActionCreators {
  import opened Wrappers
  import opened Js
  import opened Entities
  import opened License
  import opened Containers
  import opened Certificates
  import opened Signing
  import opened Files
  import opened Verification

  /** A callback waiting in the `setTimeout(…, 0)` queue, with the arguments it closed over. */
  datatype Task =
    | LoadLicenseTask
    | PackageSignTask(files: seq<FileEntry>, request: SignRequest)
    | PackageSelectTask(paths: seq<FilePath>)
    | LoadAllCertificatesTask
    | LoadAllContainersTask
    | CertificateFromContainerTask(container: Num)

  /** What the callback of `task` does when it runs, in order; a callback that throws stops where it threw. */
  function TimerEffects(task: Task, state: AppState, host: Host): seq<Effect> {
    match task
    case LoadLicenseTask => Dispatches(LoadLicenseBody(host.licenseFile, host.decodeClaims))
    case PackageSignTask(files, request) =>
      var b := SignAll(files, state.connections, request, host);
      if b.thrown then b.effects
      else b.effects + Dispatches([PackageSignSuccess(b.packageSignResult), PackageSelectFileStart,
                                   PackageDeleteFile(b.signedFileIdPackage)])
    case PackageSelectTask(paths) =>
      (match SelectedPackage(paths, host)
       case None => []
       case Some(filePackage) => [Dispatched(PackageSelectFileSuccess(filePackage))])
    case LoadAllCertificatesTask =>
      [Dispatched(LoadAllCertificatesSuccess(CertificatesOf(AssignIds(host.storeItems, host.freshId))))]
    case LoadAllContainersTask =>
      (match host.enumContainers(ProviderType)
       case None => [Dispatched(LoadAllContainersFail)]
       case Some(raw) => [Dispatched(LoadAllContainersSuccess(Listing(raw, host.freshId)))])
    case CertificateFromContainerTask(container) =>
      Dispatches(CertificateFromContainerBody(container, state.containers, host.getCertificateFromContainer))
  }

  /** The callbacks the callback of `task` defers in turn: `packageSign` hands its signed files to `filePackageSelect`. */
  function TimersScheduled(task: Task, state: AppState, host: Host): seq<Task> {
    match task
    case PackageSignTask(files, request) =>
      var b := SignAll(files, state.connections, request, host);
      if b.thrown then [] else [PackageSelectTask(b.signedFilePackage)]
    case _ => []
  }

  /** The store's `dispatch` with the thunk middleware, and the timer queue of the page. */
  class Dispatcher {
    /** Everything dispatched, emitted or posted so far, oldest first. */
    var trace: seq<Effect>
    /** The pending `setTimeout(…, 0)` callbacks, oldest first. */
    var timers: seq<Task>

    constructor()
      ensures trace == [] && timers == []
    {
      trace := [];
      timers := [];
    }

    /** `dispatch` of a plain action. */
    method Dispatch(action: Action)
      modifies this
      ensures trace == old(trace) + [Dispatched(action)]
      ensures timers == old(timers)
    {
      trace := trace + [Dispatched(action)];
    }

    /** `setTimeout(callback, 0)`. */
    method Defer(task: Task)
      modifies this
      ensures trace == old(trace)
      ensures timers == old(timers) + [task]
    {
      timers := timers + [task];
    }

    /** `dispatch(loadLicense())`. */
    method LoadLicense()
      modifies this
      ensures trace == old(trace) + [Dispatched(LoadLicenseStart)]
      ensures timers == old(timers) + [LoadLicenseTask]
    {
      Dispatch(LoadLicenseStart);
      Defer(LoadLicenseTask);
    }

    /** `dispatch(packageSign(files, cert, key, policies, format, folderOut))`: START now, the signing later. */
    method PackageSign(files: seq<FileEntry>, request: SignRequest)
      modifies this
      ensures trace == old(trace) + [Dispatched(PackageSignStart)]
      ensures timers == old(timers) + [PackageSignTask(files, request)]
    {
      Dispatch(PackageSignStart);
      Defer(PackageSignTask(files, request));
    }

    /** `dispatch(filePackageSelect(files))`. */
    method FilePackageSelect(paths: seq<FilePath>)
      modifies this
      ensures trace == old(trace) + [Dispatched(PackageSelectFileStart)]
      ensures timers == old(timers) + [PackageSelectTask(paths)]
    {
      Dispatch(PackageSelectFileStart);
      Defer(PackageSelectTask(paths));
    }

    /** `dispatch(verifyLicense(key))`: the license status is computed and dispatched at once. */
    method VerifyLicense(key: string, host: Host)
      modifies this
      ensures trace == old(trace) + [Dispatched(Action.VerifyLicense(host.checkLicense(key)))]
      ensures timers == old(timers)
    {
      var licenseStatus := host.checkLicense(key);
      Dispatch(Action.VerifyLicense(licenseStatus));
    }

    /** `dispatch(loadAllCertificates())`. */
    method LoadAllCertificates()
      modifies this
      ensures trace == old(trace) + [Dispatched(LoadAllCertificatesStart)]
      ensures timers == old(timers) + [LoadAllCertificatesTask]
    {
      Dispatch(LoadAllCertificatesStart);
      Defer(LoadAllCertificatesTask);
    }

    /** `dispatch(verifyCertificate(certificateId))`, at once and without a timer. */
    method VerifyCertificate(certificateId: Num, state: AppState, host: Host)
      modifies this
      ensures trace == old(trace) + Dispatches(VerifyCertificateEvents(certificateId, state.certificates, host))
      ensures timers == old(timers)
    {
      var certItem := Lookup(state.certificates, certificateId);
      var certificate := host.getPkiObject(certItem);
      if certificate.None? {
        return;
      }
      var certificateStatus := false;
      if certItem.Some? {
        if certItem.value.provider == SystemProvider {
          var chainForVerify := host.buildChain(certificate.value, host.trustedCerts);
          if chainForVerify.Some? {
            var verified := host.verifyChain(chainForVerify.value);
            certificateStatus := verified.Some? && verified.value;
          }
        } else {
          var verified := host.cspVerifyCertificateChain(certificate.value);
          certificateStatus := verified.Some? && verified.value;
        }
      }
      Dispatch(Action.VerifyCertificate(certificateId, certificateStatus));
    }

    /** `dispatch(loadAllContainers())`. */
    method LoadAllContainers()
      modifies this
      ensures trace == old(trace) + [Dispatched(LoadAllContainersStart)]
      ensures timers == old(timers) + [LoadAllContainersTask]
    {
      Dispatch(LoadAllContainersStart);
      Defer(LoadAllContainersTask);
    }

    /** `dispatch(getCertificateFromContainer(container))`. */
    method GetCertificateFromContainer(container: Num)
      modifies this
      ensures trace == old(trace) + [Dispatched(GetCertificateFromContainerStart(container))]
      ensures timers == old(timers) + [CertificateFromContainerTask(container)]
    {
      Dispatch(GetCertificateFromContainerStart(container));
      Defer(CertificateFromContainerTask(container));
    }

    /** `dispatch(verifySignature(fileId))`, at once and without a timer. */
    method VerifySignature(fileId: Num, state: AppState, host: Host)
      modifies this
      ensures trace == old(trace) + VerifySignatureEffects(fileId, state, host)
      ensures timers == old(timers)
    {
      var signatureStatus := false;
      var signatureInfo := InfoUndefined;
      var error: Option<Thrown> := None;
      if fileId !in state.files {
        error := Some(FileUndefined);
      } else {
        var file := state.files[fileId];
        var cms := OpenSignature(file.fullpath, host);
        if cms.Threw? {
          error := Some(cms.error);
        } else {
          var verified := host.verifySign(cms.value);
          if verified.None? {
            error := Some(VerifySignFailed);
          } else {
            signatureStatus := verified.value;
            var infos := host.getSignPropertys(cms.value);
            if infos.None? {
              error := Some(SignPropertiesFailed);
            } else {
              if file.socket.Some? && file.socket.value != "" {
                trace := trace + Notify(state.connections, file.socket.value, SignatureVerifiedEvent, SignatureVerified(infos.value));
              }
              signatureInfo := TaggedInfo(Tagged(infos.value, fileId, host));
            }
          }
        }
      }
      if error.Some? {
        Dispatch(VerifySignatureFail(error.value, fileId));
      }
      Dispatch(VerifySignatureSuccess(fileId, signatureStatus, signatureInfo));
    }

    /** The callback of `loadLicense`, with its local variables. */
    method RunLoadLicense(host: Host)
      modifies this
      ensures trace == old(trace) + Dispatches(LoadLicenseBody(host.licenseFile, host.decodeClaims))
      ensures timers == old(timers)
    {
      var data := host.licenseFile;
      var lic: Option<Json> := None;
      if data.Some? && data.value != "" {
        var splitLicense := Split(data.value, '.');
        if |splitLicense| > 1 && splitLicense[1] != "" {
          var parsedLicense := host.decodeClaims(splitLicense[1]);
          if parsedLicense.None? {
            Dispatch(LoadLicenseFail);
          } else {
            var claims := ClaimsTruthy(parsedLicense.value, ClaimKeys);
            if claims.None? {
              Dispatch(LoadLicenseFail);
            } else if claims.value {
              lic := parsedLicense;
            }
          }
        }
      }
      if lic.Some? {
        Dispatch(LoadLicenseSuccess(data.value, lic.value));
      } else {
        Dispatch(LoadLicenseFail);
      }
    }

    /** The callback of `packageSign`: the signing loop, then SUCCESS, the selection of the signed files and the deletion of their sources. */
    method RunPackageSign(files: seq<FileEntry>, request: SignRequest, state: AppState, host: Host)
      modifies this
      ensures trace == old(trace) + TimerEffects(PackageSignTask(files, request), state, host)
      ensures timers == old(timers) + TimersScheduled(PackageSignTask(files, request), state, host)
    {
      var b := SignFiles(files, state.connections, request, host);
      trace := trace + b.effects;
      if b.thrown {
        return;
      }
      Dispatch(PackageSignSuccess(b.packageSignResult));
      FilePackageSelect(b.signedFilePackage);
      Dispatch(PackageDeleteFile(b.signedFileIdPackage));
    }

    /** The callback of `filePackageSelect`. */
    method RunFilePackageSelect(paths: seq<FilePath>, host: Host)
      modifies this
      ensures var filePackage := SelectedPackage(paths, host);
        trace == old(trace) + if filePackage.Some? then [Dispatched(PackageSelectFileSuccess(filePackage.value))] else []
      ensures timers == old(timers)
    {
      var filePackage := BuildFilePackage(paths, host);
      if filePackage.Some? {
        Dispatch(PackageSelectFileSuccess(filePackage.value));
      }
    }

    /** The callback of `loadAllCertificates`: the store's items are given identifiers in place and the certificates dispatched. */
    method RunLoadAllCertificates(host: Host)
      modifies this
      ensures trace == old(trace) + [Dispatched(LoadAllCertificatesSuccess(CertificatesOf(AssignIds(host.storeItems, host.freshId))))]
      ensures timers == old(timers)
    {
      var items := new PkiItem[|host.storeItems|](i requires 0 <= i < |host.storeItems| => host.storeItems[i]);
      assert items[..] == host.storeItems;
      var certs := AssignIdsAndFilter(items, host.freshId);
      Dispatch(LoadAllCertificatesSuccess(certs));
    }

    /** The callback of `loadAllContainers`; after a failed enumeration the loop over `undefined` throws. */
    method RunLoadAllContainers(host: Host)
      modifies this
      ensures var enumed := host.enumContainers(ProviderType);
        trace == old(trace) + if enumed.None? then [Dispatched(LoadAllContainersFail)]
                              else [Dispatched(LoadAllContainersSuccess(Listing(enumed.value, host.freshId)))]
      ensures timers == old(timers)
    {
      var enumedContainers := host.enumContainers(ProviderType);
      if enumedContainers.None? {
        Dispatch(LoadAllContainersFail);
        return;
      }
      var filteredContainers := FilterContainers(enumedContainers.value, host.freshId);
      Dispatch(LoadAllContainersSuccess(filteredContainers));
    }

    /** Runs the oldest pending callback against the current state. */
    method RunNextTimer(state: AppState, host: Host)
      requires timers != []
      modifies this
      ensures trace == old(trace) + TimerEffects(old(timers[0]), state, host)
      ensures timers == old(timers[1..]) + TimersScheduled(old(timers[0]), state, host)
    {
      var task := timers[0];
      timers := timers[1..];
      match task
      case LoadLicenseTask =>
        RunLoadLicense(host);
      case PackageSignTask(files, request) =>
        RunPackageSign(files, request, state, host);
      case PackageSelectTask(paths) =>
        RunFilePackageSelect(paths, host);
      case LoadAllCertificatesTask =>
        RunLoadAllCertificates(host);
      case LoadAllContainersTask =>
        RunLoadAllContainers(host);
      case CertificateFromContainerTask(container) =>
        trace := trace + Dispatches(CertificateFromContainerBody(container, state.containers, host.getCertificateFromContainer));
    }
  }

  /**
   * `packageSign` and then its callback: START is the first thing in the trace,
   * and everything the signing loop does comes after it.
   */
  method PackageSignRun(files: seq<FileEntry>, request: SignRequest, state: AppState, host: Host)
    returns (trace: seq<Effect>, timers: seq<Task>)
    ensures trace == [Dispatched(PackageSignStart)] + TimerEffects(PackageSignTask(files, request), state, host)
    ensures timers == TimersScheduled(PackageSignTask(files, request), state, host)
  {
    var store := new Dispatcher();
    store.PackageSign(files, request);
    store.RunNextTimer(state, host);
    trace, timers := store.trace, store.timers;
  }

  /**
   * The callback of `packageSign`. When some file aborts, nothing is dispatched
   * and nothing deferred: no SUCCESS, no selection, no deletion. Otherwise the
   * files' publications are followed by SUCCESS (true exactly when every file was
   * signed), the selection of the new signature files and the deletion of exactly
   * the sources that were signed, in the order of `files`.
   */
  lemma PackageSignTimerSpec(files: seq<FileEntry>, request: SignRequest, state: AppState, host: Host)
    ensures var effects := TimerEffects(PackageSignTask(files, request), state, host);
      var later := TimersScheduled(PackageSignTask(files, request), state, host);
      var sources := SignedSources(files, request, host);
      if exists k :: 0 <= k < |files| && Aborts(files[k], request, host) then
        && (forall e :: e in effects ==> !e.Dispatched?)
        && later == []
      else
        && effects == Publications(files, state.connections, request, host) + Dispatches([
             PackageSignSuccess(forall k :: 0 <= k < |files| ==> Signs(files[k], request, host)),
             PackageSelectFileStart,
             PackageDeleteFile(IdsOf(sources))])
        && later == [PackageSelectTask(PathsOf(sources, request, host))]
  {
    SignAllThrows(files, state.connections, request, host);
    SignAllDispatchesNothing(files, state.connections, request, host);
    if !SignAll(files, state.connections, request, host).thrown {
      SignAllSpec(files, state.connections, request, host);
    }
  }

  /**
   * The signature files `packageSign` hands to `filePackageSelect` come back, when
   * they can be statted, as active registry entries, one per signed source and in
   * the same order, each carrying its source's extra data, remote id and socket key.
   */
  lemma SignedFilesReturnToRegistry(files: seq<FileEntry>, request: SignRequest, state: AppState, host: Host)
    requires forall k :: 0 <= k < |files| ==> !Aborts(files[k], request, host)
    ensures var sources := SignedSources(files, request, host);
      var later := TimersScheduled(PackageSignTask(files, request), state, host);
      && |later| == 1 && later[0].PackageSelectTask?
      && var selected := TimerEffects(later[0], state, host);
      && (SelectedPackage(later[0].paths, host).Some? ==>
            && |selected| == 1 && selected[0].action.PackageSelectFileSuccess?
            && var entries := selected[0].action.filePackage;
            && |entries| == |sources|
            && forall k :: 0 <= k < |sources| ==>
                 && entries[k].active
                 && entries[k].fullpath == host.signFile(sources[k].fullpath, request)
                 && entries[k].extra == sources[k].extra
                 && entries[k].remoteId == sources[k].remoteId
                 && entries[k].socket == sources[k].socket)
  {
    PackageSignTimerSpec(files, request, state, host);
    var sources := SignedSources(files, request, host);
    SelectedPackageSpec(PathsOf(sources, request, host), host);
  }

  /**
   * The callback of `loadAllContainers` dispatches one action: FAIL exactly when
   * the enumeration throws (the loop over `undefined` then throws before SUCCESS),
   * and otherwise SUCCESS with the listing of the kept containers.
   */
  lemma LoadAllContainersTimerSpec(state: AppState, host: Host)
    ensures var effects := TimerEffects(LoadAllContainersTask, state, host);
      && |effects| == 1
      && (effects[0] == Dispatched(LoadAllContainersFail) <==> host.enumContainers(ProviderType).None?)
      && (host.enumContainers(ProviderType).Some? ==>
            && effects[0].action.LoadAllContainersSuccess?
            && Lists(effects[0].action.containers, KeptEntries(host.enumContainers(ProviderType).value), host.freshId))
  {
    if host.enumContainers(ProviderType).Some? {
      ListingSpec(host.enumContainers(ProviderType).value, host.freshId);
    }
  }

  /**
   * The callback of `loadAllCertificates` always ends in one SUCCESS, whatever the
   * store holds: it carries exactly the CERTIFICATE items of the store after the
   * identifier pass, each with an identifier, and every CERTIFICATE item of the
   * store is among them with its identifier assigned.
   */
  lemma LoadAllCertificatesTimerSpec(state: AppState, host: Host)
    ensures var effects := TimerEffects(LoadAllCertificatesTask, state, host);
      && |effects| == 1 && effects[0].Dispatched? && effects[0].action.LoadAllCertificatesSuccess?
      && var certs := effects[0].action.certs;
      && (forall c :: c in certs <==> c in AssignIds(host.storeItems, host.freshId) && c.kind == CertificateKind)
      && (forall c :: c in certs ==> HasId(c))
      && (forall i :: 0 <= i < |host.storeItems| && host.storeItems[i].kind == CertificateKind ==>
            AssignIds(host.storeItems, host.freshId)[i] in certs)
  {
    var withIds := AssignIds(host.storeItems, host.freshId);
    var certs := CertificatesOf(withIds);
    forall c
      ensures c in certs <==> c in withIds && c.kind == CertificateKind
    {
      CertificatesOfMembers(withIds, c);
    }
    forall c | c in certs
      ensures HasId(c)
    {
      LoadedCertificatesHaveIds(host.storeItems, host.freshId, c);
    }
    forall i | 0 <= i < |host.storeItems| && host.storeItems[i].kind == CertificateKind
      ensures withIds[i] in certs
    {
      AssignIdsSpec(host.storeItems, host.freshId, i);
      CertificatesOfMembers(withIds, withIds[i]);
    }
  }
}
