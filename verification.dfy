/**
 * `verifySignature`: the signature of a registered file is opened, verified and
 * its signers read; a live connection of a remote document is told the result;
 * every signer is tagged with the file id. A throw anywhere in the `try` block
 * dispatches VERIFY_SIGNATURE + FAIL, and VERIFY_SIGNATURE + SUCCESS is
 * dispatched in every case with the status and signer list as they stood.
 */
module Verification {
  import opened Wrappers
  import opened Js
  import opened Entities
  import opened Signing

  /** `signatureInfo.map(info => ({fileId, ...info, id}))`: the k-th signer draws the k-th identifier. */
  function Tagged(infos: seq<SignerInfo>, fileId: Num, host: Host): seq<VerifiedSigner> {
    seq(|infos|, k requires 0 <= k < |infos| => VerifiedSigner(fileId, infos[k], host.freshId(k)))
  }

  /** The catch block and the final dispatch, after a throw: FAIL, then SUCCESS with no signer list. */
  function Failed(error: Thrown, fileId: Num, status: bool): seq<Effect> {
    [Dispatched(VerifySignatureFail(error, fileId)), Dispatched(VerifySignatureSuccess(fileId, status, InfoUndefined))]
  }

  /** Everything `verifySignature(fileId)` does, in order. */
  function VerifySignatureEffects(fileId: Num, state: AppState, host: Host): seq<Effect> {
    if fileId !in state.files then Failed(FileUndefined, fileId, false)
    else
      var file := state.files[fileId];
      match OpenSignature(file.fullpath, host)
      case Threw(error) => Failed(error, fileId, false)
      case Ok(cms) =>
        match host.verifySign(cms)
        case None => Failed(VerifySignFailed, fileId, false)
        case Some(status) =>
          match host.getSignPropertys(cms)
          case None => Failed(SignPropertiesFailed, fileId, status)
          case Some(infos) =>
            var notice := if Present(file.socket)
              then Notify(state.connections, file.socket.value, SignatureVerifiedEvent, SignatureVerified(infos))
              else [];
            notice + [Dispatched(VerifySignatureSuccess(fileId, status, TaggedInfo(Tagged(infos, fileId, host))))]
  }

  /** Verification reaches its end without a throw: the file is known, its signature opens, verifies and yields its signers. */
  ghost predicate Completes(fileId: Num, state: AppState, host: Host) {
    && fileId in state.files
    && OpenSignature(state.files[fileId].fullpath, host).Ok?
    && var cms := OpenSignature(state.files[fileId].fullpath, host).value;
    && host.verifySign(cms).Some?
    && host.getSignPropertys(cms).Some?
  }

  /** The effect is VERIFY_SIGNATURE + SUCCESS. */
  predicate IsSuccess(e: Effect) {
    e.Dispatched? && e.action.VerifySignatureSuccess?
  }

  /** The effect is VERIFY_SIGNATURE + FAIL. */
  predicate IsFail(e: Effect) {
    e.Dispatched? && e.action.VerifySignatureFail?
  }

  /**
   * `verifySignature` always ends with exactly one VERIFY_SIGNATURE + SUCCESS for
   * the file; a VERIFY_SIGNATURE + FAIL for the file comes right before it
   * exactly when the `try` block threw, and nothing else is dispatched.
   */
  lemma VerifySignatureOutline(fileId: Num, state: AppState, host: Host)
    ensures var effects := VerifySignatureEffects(fileId, state, host);
      && |effects| >= 1
      && var last := effects[|effects| - 1];
      && IsSuccess(last) && last.action.fileId == fileId
      && (forall i :: 0 <= i < |effects| - 1 ==> !IsSuccess(effects[i]))
      && ((exists i :: 0 <= i < |effects| && IsFail(effects[i])) <==> !Completes(fileId, state, host))
      && (!Completes(fileId, state, host) ==> |effects| == 2 && effects[0].action.fileId == fileId)
  {
    var effects := VerifySignatureEffects(fileId, state, host);
    if Completes(fileId, state, host) {
      var file := state.files[fileId];
      var cms := OpenSignature(file.fullpath, host).value;
      var status, infos := host.verifySign(cms).value, host.getSignPropertys(cms).value;
      var notice := if Present(file.socket)
        then Notify(state.connections, file.socket.value, SignatureVerifiedEvent, SignatureVerified(infos))
        else [];
      assert effects == notice + [Dispatched(VerifySignatureSuccess(fileId, status, TaggedInfo(Tagged(infos, fileId, host))))];
      assert forall e :: e in notice ==> e.Emitted?;
      assert forall i :: 0 <= i < |effects| - 1 ==> effects[i] == notice[i];
      assert forall i :: 0 <= i < |effects| ==> !IsFail(effects[i]);
    } else {
      assert IsFail(effects[0]);
    }
  }

  /**
   * The dispatched status is true exactly when the file's signature opened and
   * `verifySign` returned true, whether or not reading the signers threw after that.
   */
  lemma VerifySignatureStatus(fileId: Num, state: AppState, host: Host)
    ensures var effects := VerifySignatureEffects(fileId, state, host);
      effects[|effects| - 1].action.signatureStatus <==>
        && fileId in state.files
        && exists cms ::
             && OpenSignature(state.files[fileId].fullpath, host) == Ok(cms)
             && host.verifySign(cms) == Some(true)
  {
    if fileId in state.files {
      var outcome := OpenSignature(state.files[fileId].fullpath, host);
      if outcome.Ok? {
        assert OpenSignature(state.files[fileId].fullpath, host) == Ok(outcome.value);
      }
    }
  }

  /**
   * The dispatched signer list is defined exactly when verification completed; it
   * then holds every signer the signature reports, in order, each tagged with the
   * file id and the identifier drawn for it.
   */
  lemma VerifySignatureSigners(fileId: Num, state: AppState, host: Host)
    ensures var effects := VerifySignatureEffects(fileId, state, host);
      var info := effects[|effects| - 1].action.signatureInfo;
      && (info.TaggedInfo? <==> Completes(fileId, state, host))
      && (Completes(fileId, state, host) ==>
            var infos := host.getSignPropertys(OpenSignature(state.files[fileId].fullpath, host).value).value;
            && |info.tagged| == |infos|
            && forall k :: 0 <= k < |infos| ==>
                 info.tagged[k].fileId == fileId && info.tagged[k].info == infos[k] && info.tagged[k].id == host.freshId(k))
  {
  }

  /**
   * A connection hears of the verification only when verification completed, the
   * file belongs to a remote document and that document's connection is live; it
   * then receives the untagged signers. Every other effect is a dispatch.
   */
  lemma VerifySignatureNotice(fileId: Num, state: AppState, host: Host)
    ensures var effects := VerifySignatureEffects(fileId, state, host);
      forall e :: e in effects && !e.Dispatched? ==>
        && Completes(fileId, state, host)
        && var file := state.files[fileId];
        && Present(file.socket)
        && Live(state.connections, file.socket.value)
        && e == Emitted(state.connections[file.socket.value].socket.value, SignatureVerifiedEvent,
                        SignatureVerified(host.getSignPropertys(OpenSignature(file.fullpath, host).value).value))
    ensures (Completes(fileId, state, host) && Present(state.files[fileId].socket) &&
             Live(state.connections, state.files[fileId].socket.value)) ==>
      VerifySignatureEffects(fileId, state, host)[0].Emitted?
  {
  }
}
