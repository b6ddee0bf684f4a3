/**
 * The deferred body of `packageSign`: every file is signed in order; for a
 * signed file of a remote document (one with a socket key) the connection is
 * told, the new signature is opened, its signers are normalized and the signed
 * file is uploaded. A signature that cannot be opened throws out of the loop.
 */
module Signing {
  import opened Wrappers
  import opened Js
  import opened Entities

  /**
   * `signs.loadSign(path)` and, when the signature is detached, re-attaching
   * the content at the same path; a falsy re-attach is the thrown "err".
   */
  function OpenSignature(path: string, host: Host): Outcome<CmsHandle> {
    match host.loadSign(path)
    case None => Threw(LoadSignFailed)
    case Some(cms) =>
      if !host.isDetached(cms) then Ok(cms)
      else
        match host.setDetachedContent(cms, path)
        case None => Threw(DetachedContentMissing)
        case Some(attached) => Ok(attached)
  }

  /**
   * A signature opens exactly when it loads and, if detached, its content
   * re-attaches; a detached signature is only ever used with its content.
   */
  lemma OpenSignatureSpec(path: string, host: Host, cms: CmsHandle)
    ensures OpenSignature(path, host) == Ok(cms) <==>
      exists loaded ::
        && host.loadSign(path) == Some(loaded)
        && (host.isDetached(loaded) ==> host.setDetachedContent(loaded, path) == Some(cms))
        && (!host.isDetached(loaded) ==> cms == loaded)
    ensures OpenSignature(path, host) == Threw(LoadSignFailed) <==> host.loadSign(path).None?
    ensures OpenSignature(path, host) == Threw(DetachedContentMissing) <==>
      exists loaded ::
        && host.loadSign(path) == Some(loaded)
        && host.isDetached(loaded)
        && host.setDetachedContent(loaded, path).None?
  {
    if host.loadSign(path).Some? {
      var loaded := host.loadSign(path).value;
      assert host.loadSign(path) == Some(loaded);
    }
  }

  /** The last certificate of a signer's chain: the signer's own certificate. */
  function SubjectCert(info: SignerInfo): Certificate
    requires info.certs != []
  {
    info.certs[|info.certs| - 1]
  }

  /** `n` is the normalized record of `info` signed at time `now`. */
  ghost predicate Describes(n: NormalizedSignInfo, info: SignerInfo, now: int) {
    && info.certs != []
    && n.subjectFriendlyName == info.subject
    && n.issuerFriendlyName == SubjectCert(info).issuerFriendlyName
    && n.notBefore == SubjectCert(info).notBefore
    && n.notAfter == SubjectCert(info).notAfter
    && n.digestAlgorithm == SubjectCert(info).signatureDigestAlgorithm
    && n.signingTime == now
    && n.subjectName == SubjectCert(info).subjectName
    && n.issuerName == SubjectCert(info).issuerName
  }

  /**
   * The `normalyzeSignatureInfo` list, signer by signer; `None` when a signer
   * has no certificate (reading a property of `undefined` throws).
   */
  function Normalized(infos: seq<SignerInfo>, now: int): Option<seq<NormalizedSignInfo>> {
    if infos == [] then Some([])
    else
      match Normalized(infos[..|infos| - 1], now)
      case None => None
      case Some(prev) =>
        var info := infos[|infos| - 1];
        if info.certs == [] then None
        else
          var subjectCert := SubjectCert(info);
          Some(prev + [NormalizedSignInfo(
            info.subject, subjectCert.issuerFriendlyName, subjectCert.notBefore, subjectCert.notAfter,
            subjectCert.signatureDigestAlgorithm, now, subjectCert.subjectName, subjectCert.issuerName)])
  }

  /**
   * Normalization succeeds exactly when every signer has a certificate; it then
   * gives one record per signer, in order, read from that signer's own certificate.
   */
  lemma {:induction false} NormalizedSpec(infos: seq<SignerInfo>, now: int)
    ensures Normalized(infos, now).Some? <==> forall k :: 0 <= k < |infos| ==> infos[k].certs != []
    ensures Normalized(infos, now).Some? ==>
      var r := Normalized(infos, now).value;
      |r| == |infos| && forall k :: 0 <= k < |infos| ==> Describes(r[k], infos[k], now)
    decreases |infos|
  {
    if infos != [] {
      var init := infos[..|infos| - 1];
      NormalizedSpec(init, now);
      assert forall k :: 0 <= k < |init| ==> init[k] == infos[k];
    }
  }

  /** The `forEach` over the signers that fills `normalyzeSignatureInfo`. */
  method NormalizeSignerInfos(infos: seq<SignerInfo>, now: int) returns (r: Option<seq<NormalizedSignInfo>>)
    ensures r == Normalized(infos, now)
  {
    var normalized: seq<NormalizedSignInfo> := [];
    for i := 0 to |infos|
      invariant Normalized(infos[..i], now) == Some(normalized)
    {
      assert infos[..i + 1][..i] == infos[..i];
      var info := infos[i];
      if info.certs == [] {
        NormalizedSpec(infos, now);
        return None;
      }
      var subjectCert := info.certs[|info.certs| - 1];
      normalized := normalized + [NormalizedSignInfo(
        info.subject, subjectCert.issuerFriendlyName, subjectCert.notBefore, subjectCert.notAfter,
        subjectCert.signatureDigestAlgorithm, now, subjectCert.subjectName, subjectCert.issuerName)];
    }
    assert infos[..|infos|] == infos;
    return Some(normalized);
  }

  /** The signers of the new signature at `newPath`, normalized; `None` when any step throws. */
  function SignersOf(newPath: string, host: Host): Option<seq<NormalizedSignInfo>> {
    match OpenSignature(newPath, host)
    case Threw(_) => None
    case Ok(cms) =>
      match host.getSignPropertys(cms)
      case None => None
      case Some(infos) => Normalized(infos, host.now)
  }

  /** Opening the new signature and normalizing its signers, as the loop body does it. */
  method ReadSigners(newPath: string, host: Host) returns (signers: Option<seq<NormalizedSignInfo>>)
    ensures signers == SignersOf(newPath, host)
  {
    var outcome := OpenSignature(newPath, host);
    if outcome.Threw? {
      return None;
    }
    var infos := host.getSignPropertys(outcome.value);
    if infos.None? {
      return None;
    }
    signers := NormalizeSignerInfos(infos.value, host.now);
  }

  /** The state of the signing loop: the result flag, the two lists it fills, what it did outside, and whether it threw. */
  datatype Batch = Batch(
    packageSignResult: bool,
    signedFileIdPackage: seq<Num>,
    signedFilePackage: seq<FilePath>,
    effects: seq<Effect>,
    thrown: bool)

  /** The artifact entry of a signed file: the new path, with the source's extra data, remote id and socket key. */
  function SignedPath(file: FileEntry, newPath: string): FilePath {
    FilePath(newPath, file.extra, file.remoteId, file.socket)
  }

  /** One iteration of the `forEach` callback; once the loop has thrown, nothing more happens. */
  function SignStep(b: Batch, file: FileEntry, connections: map<string, Connection>, request: SignRequest, host: Host): Batch {
    if b.thrown then b
    else
      var newPath := host.signFile(file.fullpath, request);
      if newPath == "" then b.(packageSignResult := false)
      else
        var signed := b.(signedFileIdPackage := b.signedFileIdPackage + [file.id],
                         signedFilePackage := b.signedFilePackage + [SignedPath(file, newPath)]);
        if !Present(file.socket) then signed
        else
          var told := b.effects + Notify(connections, file.socket.value, FilesSignedEvent, FilesSigned(file.fullpath));
          match SignersOf(newPath, host)
          case None => signed.(effects := told, thrown := true)
          case Some(signers) =>
            signed.(effects := told + [Posted(UploadUrl, Upload(file.extra, newPath, file.remoteId, signers))])
  }

  /** The loop over `files`, from `packageSignResult = true` and two empty lists. */
  function SignAll(files: seq<FileEntry>, connections: map<string, Connection>, request: SignRequest, host: Host): Batch {
    if files == [] then Batch(true, [], [], [], false)
    else SignStep(SignAll(files[..|files| - 1], connections, request, host), files[|files| - 1], connections, request, host)
  }

  /** The `files.forEach` of `packageSign`; an uncaught throw leaves the loop with what it had done so far. */
  method SignFiles(files: seq<FileEntry>, connections: map<string, Connection>, request: SignRequest, host: Host)
    returns (b: Batch)
    ensures b == SignAll(files, connections, request, host)
  {
    var packageSignResult := true;
    var signedFileIdPackage: seq<Num> := [];
    var signedFilePackage: seq<FilePath> := [];
    var effects: seq<Effect> := [];
    for i := 0 to |files|
      invariant SignAll(files[..i], connections, request, host)
        == Batch(packageSignResult, signedFileIdPackage, signedFilePackage, effects, false)
    {
      assert files[..i + 1][..i] == files[..i];
      var file := files[i];
      var newPath := host.signFile(file.fullpath, request);
      if newPath != "" {
        signedFileIdPackage := signedFileIdPackage + [file.id];
        signedFilePackage := signedFilePackage + [FilePath(newPath, file.extra, file.remoteId, file.socket)];
        if file.socket.Some? && file.socket.value != "" {
          effects := effects + Notify(connections, file.socket.value, FilesSignedEvent, FilesSigned(file.fullpath));
          var signers := ReadSigners(newPath, host);
          if signers.None? {
            ThrownIsFinal(files, i + 1, connections, request, host);
            return Batch(packageSignResult, signedFileIdPackage, signedFilePackage, effects, true);
          }
          effects := effects + [Posted(UploadUrl, Upload(file.extra, newPath, file.remoteId, signers.value))];
        }
      } else {
        packageSignResult := false;
      }
    }
    assert files[..|files|] == files;
    return Batch(packageSignResult, signedFileIdPackage, signedFilePackage, effects, false);
  }

  /** Once a file has thrown, the files after it are not signed: the loop's outcome is fixed. */
  lemma {:induction false} ThrownIsFinal(
    files: seq<FileEntry>, j: nat, connections: map<string, Connection>, request: SignRequest, host: Host)
    requires j <= |files|
    requires SignAll(files[..j], connections, request, host).thrown
    ensures SignAll(files, connections, request, host) == SignAll(files[..j], connections, request, host)
    decreases |files| - j
  {
    if j < |files| {
      var init := files[..|files| - 1];
      assert init[..j] == files[..j];
      ThrownIsFinal(init, j, connections, request, host);
    } else {
      assert files[..j] == files;
    }
  }

  /** The loop itself dispatches nothing: it only notifies connections and uploads. */
  lemma {:induction false} SignAllDispatchesNothing(
    files: seq<FileEntry>, connections: map<string, Connection>, request: SignRequest, host: Host)
    ensures forall e :: e in SignAll(files, connections, request, host).effects ==> !e.Dispatched?
    decreases |files|
  {
    if files != [] {
      SignAllDispatchesNothing(files[..|files| - 1], connections, request, host);
    }
  }

  // ---------------------------------------------------------------------
  // Reference definitions, file by file, front to back
  // ---------------------------------------------------------------------

  /** `signFile` returned a path for `file`. */
  predicate Signs(file: FileEntry, request: SignRequest, host: Host) {
    host.signFile(file.fullpath, request) != ""
  }

  /** Signing `file` throws: it was signed, it belongs to a remote document, and its new signature cannot be read. */
  predicate Aborts(file: FileEntry, request: SignRequest, host: Host) {
    Signs(file, request, host) && Present(file.socket) && SignersOf(host.signFile(file.fullpath, request), host).None?
  }

  /** The files `signFile` succeeded on, in order. */
  function SignedSources(files: seq<FileEntry>, request: SignRequest, host: Host): seq<FileEntry> {
    if files == [] then []
    else (if Signs(files[0], request, host) then [files[0]] else []) + SignedSources(files[1..], request, host)
  }

  /** The ids of some files, in order. */
  function IdsOf(files: seq<FileEntry>): seq<Num> {
    seq(|files|, k requires 0 <= k < |files| => files[k].id)
  }

  /** The artifact entries of some signed files, in order. */
  function PathsOf(files: seq<FileEntry>, request: SignRequest, host: Host): seq<FilePath> {
    seq(|files|, k requires 0 <= k < |files| => SignedPath(files[k], host.signFile(files[k].fullpath, request)))
  }

  /** What signing one file shows outside: for a signed file of a remote document, the notice to a live connection and then the upload. */
  function Publication(file: FileEntry, connections: map<string, Connection>, request: SignRequest, host: Host): seq<Effect> {
    var newPath := host.signFile(file.fullpath, request);
    if newPath == "" || !Present(file.socket) then []
    else
      Notify(connections, file.socket.value, FilesSignedEvent, FilesSigned(file.fullpath)) +
      match SignersOf(newPath, host)
      case None => []
      case Some(signers) => [Posted(UploadUrl, Upload(file.extra, newPath, file.remoteId, signers))]
  }

  /** The publications of all files, in order. */
  function Publications(files: seq<FileEntry>, connections: map<string, Connection>, request: SignRequest, host: Host): seq<Effect> {
    if files == [] then []
    else Publication(files[0], connections, request, host) + Publications(files[1..], connections, request, host)
  }

  lemma {:induction false} SignedSourcesSnoc(files: seq<FileEntry>, f: FileEntry, request: SignRequest, host: Host)
    ensures SignedSources(files + [f], request, host) ==
      SignedSources(files, request, host) + (if Signs(f, request, host) then [f] else [])
    decreases |files|
  {
    if files == [] {
      assert [] + [f] == [f];
      assert [f][1..] == [];
    } else {
      SignedSourcesSnoc(files[1..], f, request, host);
      assert (files + [f])[1..] == files[1..] + [f];
    }
  }

  lemma {:induction false} PublicationsSnoc(
    files: seq<FileEntry>, f: FileEntry, connections: map<string, Connection>, request: SignRequest, host: Host)
    ensures Publications(files + [f], connections, request, host) ==
      Publications(files, connections, request, host) + Publication(f, connections, request, host)
    decreases |files|
  {
    if files == [] {
      assert [] + [f] == [f];
      assert [f][1..] == [];
    } else {
      PublicationsSnoc(files[1..], f, connections, request, host);
      assert (files + [f])[1..] == files[1..] + [f];
    }
  }

  /** The loop throws exactly when some file aborts. */
  lemma {:induction false} SignAllThrows(
    files: seq<FileEntry>, connections: map<string, Connection>, request: SignRequest, host: Host)
    ensures SignAll(files, connections, request, host).thrown <==>
      exists k :: 0 <= k < |files| && Aborts(files[k], request, host)
    decreases |files|
  {
    if files != [] {
      var init, f := files[..|files| - 1], files[|files| - 1];
      SignAllThrows(init, connections, request, host);
      assert forall k :: 0 <= k < |init| ==> init[k] == files[k];
      if exists k :: 0 <= k < |files| && Aborts(files[k], request, host) {
        var k :| 0 <= k < |files| && Aborts(files[k], request, host);
        if k < |init| {
          assert Aborts(init[k], request, host);
        }
      }
    }
  }

  /** One step that does not throw extends the two lists by the file's id and new path exactly when the file was signed. */
  lemma StepLists(b: Batch, f: FileEntry, connections: map<string, Connection>, request: SignRequest, host: Host)
    requires !SignStep(b, f, connections, request, host).thrown
    ensures var next := SignStep(b, f, connections, request, host);
      && next.signedFileIdPackage == b.signedFileIdPackage + (if Signs(f, request, host) then [f.id] else [])
      && next.signedFilePackage == b.signedFilePackage +
           (if Signs(f, request, host) then [SignedPath(f, host.signFile(f.fullpath, request))] else [])
  {
    if !Signs(f, request, host) {
      assert b.signedFileIdPackage + [] == b.signedFileIdPackage;
      assert b.signedFilePackage + [] == b.signedFilePackage;
    }
  }

  /** The ids and new paths of the signed files, extended by one more file. */
  lemma ListsOfSnoc(sources: seq<FileEntry>, f: FileEntry, request: SignRequest, host: Host)
    ensures IdsOf(sources + [f]) == IdsOf(sources) + [f.id]
    ensures PathsOf(sources + [f], request, host) ==
      PathsOf(sources, request, host) + [SignedPath(f, host.signFile(f.fullpath, request))]
  {
  }

  /** When no file aborts, the two lists hold the files `signFile` succeeded on: their ids, and their new paths with their origin. */
  lemma {:induction false} SignAllLists(
    files: seq<FileEntry>, connections: map<string, Connection>, request: SignRequest, host: Host)
    requires !SignAll(files, connections, request, host).thrown
    ensures var b := SignAll(files, connections, request, host);
      var sources := SignedSources(files, request, host);
      && b.signedFileIdPackage == IdsOf(sources)
      && b.signedFilePackage == PathsOf(sources, request, host)
    decreases |files|
  {
    if files != [] {
      var init, f := files[..|files| - 1], files[|files| - 1];
      assert files == init + [f];
      var prev := SignAll(init, connections, request, host);
      assert SignAll(files, connections, request, host) == SignStep(prev, f, connections, request, host);
      assert !prev.thrown;
      SignAllLists(init, connections, request, host);
      SignedSourcesSnoc(init, f, request, host);
      StepLists(prev, f, connections, request, host);
      var sources := SignedSources(init, request, host);
      if Signs(f, request, host) {
        ListsOfSnoc(sources, f, request, host);
      } else {
        assert sources + [] == sources;
      }
    }
  }

  /** `packageSignResult` stays true exactly when every file was signed. */
  lemma {:induction false} SignAllResult(
    files: seq<FileEntry>, connections: map<string, Connection>, request: SignRequest, host: Host)
    requires !SignAll(files, connections, request, host).thrown
    ensures SignAll(files, connections, request, host).packageSignResult <==>
      forall k :: 0 <= k < |files| ==> Signs(files[k], request, host)
    decreases |files|
  {
    if files != [] {
      var init, f := files[..|files| - 1], files[|files| - 1];
      var prev := SignAll(init, connections, request, host);
      assert SignAll(files, connections, request, host) == SignStep(prev, f, connections, request, host);
      assert !prev.thrown;
      SignAllResult(init, connections, request, host);
      assert forall k :: 0 <= k < |init| ==> init[k] == files[k];
    }
  }

  /** When no file aborts, what the loop did outside is every file's publication, in order. */
  lemma {:induction false} SignAllEffects(
    files: seq<FileEntry>, connections: map<string, Connection>, request: SignRequest, host: Host)
    requires !SignAll(files, connections, request, host).thrown
    ensures SignAll(files, connections, request, host).effects == Publications(files, connections, request, host)
    decreases |files|
  {
    if files != [] {
      var init, f := files[..|files| - 1], files[|files| - 1];
      assert files == init + [f];
      var prev := SignAll(init, connections, request, host);
      assert SignAll(files, connections, request, host) == SignStep(prev, f, connections, request, host);
      assert !prev.thrown;
      SignAllEffects(init, connections, request, host);
      PublicationsSnoc(init, f, connections, request, host);
    }
  }

  /**
   * When no file aborts, `signedFileIdPackage` holds exactly the ids of the files
   * `signFile` succeeded on, `signedFilePackage` their new paths with their extra
   * data, remote ids and socket keys, both in the order of `files`;
   * `packageSignResult` is true exactly when every file was signed; and what the
   * loop did outside is every file's publication, in order.
   */
  lemma SignAllSpec(files: seq<FileEntry>, connections: map<string, Connection>, request: SignRequest, host: Host)
    requires !SignAll(files, connections, request, host).thrown
    ensures var b := SignAll(files, connections, request, host);
      var sources := SignedSources(files, request, host);
      && b.signedFileIdPackage == IdsOf(sources)
      && b.signedFilePackage == PathsOf(sources, request, host)
      && (b.packageSignResult <==> forall k :: 0 <= k < |files| ==> Signs(files[k], request, host))
      && b.effects == Publications(files, connections, request, host)
  {
    SignAllLists(files, connections, request, host);
    SignAllResult(files, connections, request, host);
    SignAllEffects(files, connections, request, host);
  }

  /** An effect is among the publications exactly when it is among some file's publication. */
  lemma {:induction false} PublicationsMembers(
    files: seq<FileEntry>, connections: map<string, Connection>, request: SignRequest, host: Host, e: Effect)
    ensures e in Publications(files, connections, request, host) <==>
      exists k :: 0 <= k < |files| && e in Publication(files[k], connections, request, host)
    decreases |files|
  {
    if files != [] {
      PublicationsMembers(files[1..], connections, request, host, e);
      assert forall k :: 1 <= k < |files| ==> files[1..][k - 1] == files[k];
      if e in Publications(files[1..], connections, request, host) {
        var k :| 0 <= k < |files[1..]| && e in Publication(files[1..][k], connections, request, host);
        assert e in Publication(files[k + 1], connections, request, host);
      }
      if exists k :: 0 <= k < |files| && e in Publication(files[k], connections, request, host) {
        var k :| 0 <= k < |files| && e in Publication(files[k], connections, request, host);
        if k > 0 {
          assert e in Publication(files[1..][k - 1], connections, request, host);
        }
      }
    }
  }

  /**
   * The loop only ever tells a live connection about a file that was signed and
   * belongs to it, and only ever uploads a signed file of a remote document,
   * with that file's extra data and remote id, to the upload endpoint.
   */
  lemma PublicationsSound(
    files: seq<FileEntry>, connections: map<string, Connection>, request: SignRequest, host: Host, e: Effect)
    requires e in Publications(files, connections, request, host)
    ensures !e.Dispatched?
    ensures e.Emitted? ==> exists k ::
      && 0 <= k < |files|
      && Signs(files[k], request, host) && Present(files[k].socket)
      && Live(connections, files[k].socket.value)
      && e == Emitted(connections[files[k].socket.value].socket.value, FilesSignedEvent, FilesSigned(files[k].fullpath))
    ensures e.Posted? ==> exists k ::
      && 0 <= k < |files|
      && Signs(files[k], request, host) && Present(files[k].socket)
      && var newPath := host.signFile(files[k].fullpath, request);
      && SignersOf(newPath, host) == Some(e.form.signers)
      && e == Posted(UploadUrl, Upload(files[k].extra, newPath, files[k].remoteId, e.form.signers))
  {
    PublicationsMembers(files, connections, request, host, e);
  }

  /**
   * Conversely, every signed file of a remote document tells its connection
   * when that connection is live, and is uploaded with its normalized signers
   * when its signature can be read.
   */
  lemma PublicationsComplete(
    files: seq<FileEntry>, connections: map<string, Connection>, request: SignRequest, host: Host, k: nat)
    requires k < |files| && Signs(files[k], request, host) && Present(files[k].socket)
    ensures Live(connections, files[k].socket.value) ==>
      Emitted(connections[files[k].socket.value].socket.value, FilesSignedEvent, FilesSigned(files[k].fullpath))
        in Publications(files, connections, request, host)
    ensures var newPath := host.signFile(files[k].fullpath, request);
      SignersOf(newPath, host).Some? ==>
        Posted(UploadUrl, Upload(files[k].extra, newPath, files[k].remoteId, SignersOf(newPath, host).value))
          in Publications(files, connections, request, host)
  {
    var file := files[k];
    var p := Publication(file, connections, request, host);
    if Live(connections, file.socket.value) {
      var e := Emitted(connections[file.socket.value].socket.value, FilesSignedEvent, FilesSigned(file.fullpath));
      assert e == p[0];
      PublicationsMembers(files, connections, request, host, e);
    }
    var newPath := host.signFile(file.fullpath, request);
    if SignersOf(newPath, host).Some? {
      var e := Posted(UploadUrl, Upload(file.extra, newPath, file.remoteId, SignersOf(newPath, host).value));
      assert e == p[|p| - 1];
      PublicationsMembers(files, connections, request, host, e);
    }
  }
}
