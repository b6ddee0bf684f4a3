/**
 * The certificate registry load of `loadAllCertificates` (identifier assignment
 * and the certificate subset) and the trust decision of `verifyCertificate`.
 */
module Certificates {
  import opened Wrappers
  import opened Entities

  /** The `type` of the store items that are certificates. */
  const CertificateKind := "CERTIFICATE"

  /** The provider whose certificates are checked by building a chain. */
  const SystemProvider := "SYSTEM"

  /** `item.id` is truthy. */
  predicate HasId(item: PkiItem) {
    item.id != 0.0
  }

  /** The store items after the identifier pass: the i-th item draws the i-th fresh identifier when it has none. */
  function AssignIds(items: seq<PkiItem>, freshId: nat -> Stamp): seq<PkiItem> {
    seq(|items|, i requires 0 <= i < |items| => if HasId(items[i]) then items[i] else items[i].(id := freshId(i)))
  }

  /** The certificates among `items`, in store order. */
  function CertificatesOf(items: seq<PkiItem>): seq<PkiItem> {
    if items == [] then []
    else
      var prev := CertificatesOf(items[..|items| - 1]);
      var item := items[|items| - 1];
      if item.kind == CertificateKind then prev + [item] else prev
  }

  /**
   * The `filter` callback of `loadAllCertificates` run over the store's item array:
   * it gives an identifier to each item that has none, in place, and keeps the certificates.
   */
  method AssignIdsAndFilter(items: array<PkiItem>, freshId: nat -> Stamp) returns (certs: seq<PkiItem>)
    modifies items
    ensures items[..] == AssignIds(old(items[..]), freshId)
    ensures certs == CertificatesOf(items[..])
  {
    ghost var before := items[..];
    certs := [];
    for i := 0 to items.Length
      invariant forall k :: 0 <= k < i ==> items[k] == AssignIds(before, freshId)[k]
      invariant forall k :: i <= k < items.Length ==> items[k] == before[k]
      invariant certs == CertificatesOf(items[..i])
    {
      assert items[i] == before[i];
      if items[i].id == 0.0 {
        items[i] := items[i].(id := freshId(i));
      }
      assert AssignIds(before, freshId)[i] == if HasId(before[i]) then before[i] else before[i].(id := freshId(i));
      assert items[i] == AssignIds(before, freshId)[i];
      assert items[..i + 1] == items[..i] + [items[i]];
      assert items[..i + 1][..i] == items[..i];
      if items[i].kind == CertificateKind {
        certs := certs + [items[i]];
      }
    }
    assert items[..] == items[..items.Length];
    assert items[..] == AssignIds(before, freshId);
  }

  /** An item that already has an identifier keeps it; one that has none gets its fresh one; nothing else changes. */
  lemma AssignIdsSpec(items: seq<PkiItem>, freshId: nat -> Stamp, i: nat)
    requires i < |items|
    ensures |AssignIds(items, freshId)| == |items|
    ensures HasId(items[i]) ==> AssignIds(items, freshId)[i] == items[i]
    ensures !HasId(items[i]) ==> AssignIds(items, freshId)[i].id == freshId(i)
    ensures HasId(AssignIds(items, freshId)[i])
    ensures var r := AssignIds(items, freshId)[i]; r.kind == items[i].kind && r.provider == items[i].provider && r.hash == items[i].hash
  {
  }

  /** Running the identifier pass again reassigns nothing, whatever fresh identifiers it draws. */
  lemma AssignIdsIdempotent(items: seq<PkiItem>, f1: nat -> Stamp, f2: nat -> Stamp)
    ensures AssignIds(AssignIds(items, f1), f2) == AssignIds(items, f1)
  {
    var once := AssignIds(items, f1);
    forall k | 0 <= k < |once|
      ensures AssignIds(once, f2)[k] == once[k]
    {
      var drawn: Stamp := f1(k);
      assert drawn > 0.0;
      assert HasId(items[k]) || once[k].id == drawn;
      assert HasId(once[k]);
    }
  }

  /** The certificate subset of a concatenation is the concatenation of the subsets: store order is kept. */
  lemma {:induction false} CertificatesOfAppend(a: seq<PkiItem>, b: seq<PkiItem>)
    ensures CertificatesOf(a + b) == CertificatesOf(a) + CertificatesOf(b)
    decreases |b|
  {
    if b == [] {
      assert a + b == a;
    } else {
      var init := b[..|b| - 1];
      CertificatesOfAppend(a, init);
      assert (a + b)[..|a + b| - 1] == a + init;
      assert (a + b)[|a + b| - 1] == b[|b| - 1];
    }
  }

  /** An item is among the dispatched certificates exactly when it is a store item of type CERTIFICATE. */
  lemma {:induction false} CertificatesOfMembers(items: seq<PkiItem>, c: PkiItem)
    ensures c in CertificatesOf(items) <==> c in items && c.kind == CertificateKind
    decreases |items|
  {
    if items != [] {
      var init := items[..|items| - 1];
      CertificatesOfMembers(init, c);
      assert items == init + [items[|items| - 1]];
      assert c in items <==> c in init || c == items[|items| - 1];
    }
  }

  /** Every certificate `loadAllCertificates` dispatches is a store item of type CERTIFICATE, and has an identifier. */
  lemma LoadedCertificatesHaveIds(items: seq<PkiItem>, freshId: nat -> Stamp, c: PkiItem)
    requires c in CertificatesOf(AssignIds(items, freshId))
    ensures c.kind == CertificateKind && HasId(c)
    ensures exists i :: 0 <= i < |items| && c.kind == items[i].kind && c.provider == items[i].provider && c.hash == items[i].hash
  {
    var withIds := AssignIds(items, freshId);
    CertificatesOfMembers(withIds, c);
    var i :| 0 <= i < |withIds| && withIds[i] == c;
    AssignIdsSpec(items, freshId, i);
  }

  /** `certItem.provider === "SYSTEM"`. */
  predicate IsSystem(item: PkiItem) {
    item.provider == SystemProvider
  }

  /**
   * The `certificateStatus` of `verifyCertificate` for the registry entry `item`
   * (`None` when the id is unknown) and its PKI object `cert`: any throw in the
   * `try` block, including reading `provider` of `undefined`, yields `false`.
   */
  function CertificateStatus(item: Option<PkiItem>, cert: PkiHandle, host: Host): bool {
    if item.None? then false
    else if IsSystem(item.value) then
      match host.buildChain(cert, host.trustedCerts)
      case None => false
      case Some(chain) =>
        match host.verifyChain(chain)
        case None => false
        case Some(ok) => ok
    else
      match host.cspVerifyCertificateChain(cert)
      case None => false
      case Some(ok) => ok
  }

  /** The registry entry for an id, `undefined` when absent. */
  function Lookup(certificates: map<Num, PkiItem>, certificateId: Num): Option<PkiItem> {
    if certificateId in certificates then Some(certificates[certificateId]) else None
  }

  /**
   * The actions `verifyCertificate` dispatches: nothing when `getPkiObject`
   * throws (outside the `try`), otherwise one VERIFY_CERTIFICATE.
   */
  function VerifyCertificateEvents(certificateId: Num, certificates: map<Num, PkiItem>, host: Host): seq<Action> {
    var item := Lookup(certificates, certificateId);
    match host.getPkiObject(item)
    case None => []
    case Some(cert) => [VerifyCertificate(certificateId, CertificateStatus(item, cert, host))]
  }

  /** The certificate is trusted: a system certificate whose chain builds and verifies, or another one the CSP accepts. */
  ghost predicate Trusted(item: PkiItem, cert: PkiHandle, host: Host) {
    if IsSystem(item) then
      exists chain :: host.buildChain(cert, host.trustedCerts) == Some(chain) && host.verifyChain(chain) == Some(true)
    else
      host.cspVerifyCertificateChain(cert) == Some(true)
  }

  /**
   * `verifyCertificate` dispatches exactly one VERIFY_CERTIFICATE, for the given
   * id, whenever the PKI object resolves; its status is true exactly when the
   * entry exists and is trusted by the algorithm its provider selects.
   */
  lemma VerifyCertificateSpec(certificateId: Num, certificates: map<Num, PkiItem>, host: Host)
    ensures var events := VerifyCertificateEvents(certificateId, certificates, host);
      && (events == [] <==> host.getPkiObject(Lookup(certificates, certificateId)).None?)
      && |events| <= 1
      && forall e :: e in events ==>
           && e.VerifyCertificate?
           && e.certificateId == certificateId
           && (e.certificateStatus <==>
                 certificateId in certificates &&
                 Trusted(certificates[certificateId], host.getPkiObject(Lookup(certificates, certificateId)).value, host))
  {
  }

  /** A system certificate whose chain cannot be built is untrusted, and nothing is raised to the caller. */
  lemma ChainBuildFailureIsUntrusted(item: PkiItem, cert: PkiHandle, host: Host)
    requires IsSystem(item) && host.buildChain(cert, host.trustedCerts).None?
    ensures !CertificateStatus(Some(item), cert, host)
  {
  }
}
