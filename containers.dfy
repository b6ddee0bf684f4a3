/**
 * The container listing of `loadAllContainers` and the certificate lookup of
 * `getCertificateFromContainer`.
 */
module Containers {
  import opened Wrappers
  import opened Js
  import opened Entities

  /** The substring whose position decides whether a container is listed. */
  const RegistryMarker := "registry"

  /** `cont.fqcnA.toLowerCase().indexOf("registry") <= 0`. */
  predicate Kept(c: RawContainer) {
    IndexOf(ToLower(c.fqcnA), RegistryMarker) <= 0
  }

  /** `fqcnA.substring(4, fqcnA.lastIndexOf("\\"))`. */
  function Reader(fqcnA: string): string {
    Substring(fqcnA, 4, LastIndexOf(fqcnA, '\\'))
  }

  /** The listing entry for a kept container, with the identifier drawn for it. */
  function Listed(c: RawContainer, id: Stamp): Container {
    Container(c.container, id, c.unique, Reader(c.fqcnA))
  }

  /**
   * The listing built from the enumeration `raw`, entry by entry; the k-th
   * kept container takes the k-th random identifier.
   */
  function Listing(raw: seq<RawContainer>, freshId: nat -> Stamp): seq<Container> {
    if raw == [] then []
    else
      var prev := Listing(raw[..|raw| - 1], freshId);
      var c := raw[|raw| - 1];
      if Kept(c) then prev + [Listed(c, freshId(|prev|))] else prev
  }

  /** The `for...of` loop of `loadAllContainers`, pushing into `filteredContainers`. */
  method FilterContainers(enumed: seq<RawContainer>, freshId: nat -> Stamp) returns (filtered: seq<Container>)
    ensures filtered == Listing(enumed, freshId)
  {
    filtered := [];
    for i := 0 to |enumed|
      invariant filtered == Listing(enumed[..i], freshId)
    {
      var cont := enumed[i];
      assert enumed[..i + 1][..i] == enumed[..i];
      if IndexOf(ToLower(cont.fqcnA), RegistryMarker) <= 0 {
        filtered := filtered + [Container(cont.container, freshId(|filtered|), cont.unique,
                                          Substring(cont.fqcnA, 4, LastIndexOf(cont.fqcnA, '\\')))];
      }
    }
    assert enumed[..|enumed|] == enumed;
  }

  /** The kept containers of an enumeration, in enumeration order (the reference filter). */
  function KeptEntries(raw: seq<RawContainer>): seq<RawContainer> {
    if raw == [] then []
    else if Kept(raw[0]) then [raw[0]] + KeptEntries(raw[1..])
    else KeptEntries(raw[1..])
  }

  /** Filtering an extended enumeration extends the filtered list. */
  lemma {:induction false} KeptEntriesSnoc(raw: seq<RawContainer>, c: RawContainer)
    ensures KeptEntries(raw + [c]) == KeptEntries(raw) + (if Kept(c) then [c] else [])
  {
    if raw == [] {
      assert [] + [c] == [c];
      assert [c][1..] == [];
    } else {
      KeptEntriesSnoc(raw[1..], c);
      assert (raw + [c])[1..] == raw[1..] + [c];
    }
  }

  /** `listing` holds, in order, the listing entry of each container of `kept`, the k-th with the k-th identifier. */
  ghost predicate Lists(listing: seq<Container>, kept: seq<RawContainer>, freshId: nat -> Stamp) {
    |listing| == |kept| && forall k :: 0 <= k < |kept| ==> listing[k] == Listed(kept[k], freshId(k))
  }

  /** Listing one more kept container extends the listing by its entry, with the next identifier. */
  lemma ListsSnoc(listing: seq<Container>, kept: seq<RawContainer>, c: RawContainer, freshId: nat -> Stamp)
    requires Lists(listing, kept, freshId)
    ensures Lists(listing + [Listed(c, freshId(|kept|))], kept + [c], freshId)
  {
    var longer := listing + [Listed(c, freshId(|kept|))];
    forall k | 0 <= k < |kept| + 1
      ensures longer[k] == Listed((kept + [c])[k], freshId(k))
    {
      if k < |kept| {
        assert longer[k] == listing[k];
      }
    }
  }

  /**
   * The listing is the kept containers, in enumeration order, each shown with its
   * display name, its unique name, its reader, and the k-th random identifier.
   */
  lemma {:induction false} ListingSpec(raw: seq<RawContainer>, freshId: nat -> Stamp)
    ensures Lists(Listing(raw, freshId), KeptEntries(raw), freshId)
    decreases |raw|
  {
    if raw != [] {
      var init, c := raw[..|raw| - 1], raw[|raw| - 1];
      ListingSpec(init, freshId);
      assert init + [c] == raw;
      KeptEntriesSnoc(init, c);
      var prev, kept := Listing(init, freshId), KeptEntries(init);
      if Kept(c) {
        ListsSnoc(prev, kept, c, freshId);
        assert Listing(raw, freshId) == prev + [Listed(c, freshId(|prev|))];
        assert KeptEntries(raw) == kept + [c];
      } else {
        assert Listing(raw, freshId) == prev;
        assert KeptEntries(raw) == kept;
      }
    }
  }

  /** Every listed container comes from the enumeration, and every enumerated container that passes the rule is listed. */
  lemma {:induction false} KeptEntriesMembers(raw: seq<RawContainer>, c: RawContainer)
    ensures c in KeptEntries(raw) <==> c in raw && Kept(c)
    decreases |raw|
  {
    if raw != [] {
      KeptEntriesMembers(raw[1..], c);
      assert c in raw <==> c == raw[0] || c in raw[1..];
    }
  }

  /**
   * The registry rule: a container is kept exactly when "registry" (case-insensitively
   * for ASCII) does not occur in its name at all, or occurs first at position 0.
   */
  lemma KeptRule(c: RawContainer)
    ensures Kept(c) <==> OccursAt(ToLower(c.fqcnA), RegistryMarker, 0) || forall i :: !OccursAt(ToLower(c.fqcnA), RegistryMarker, i)
  {
  }

  /** A reader name sits between the four-character prefix and the last backslash. */
  lemma ReaderBetweenPrefixAndLastSeparator(fqcnA: string)
    requires LastIndexOf(fqcnA, '\\') >= 4
    ensures var last := LastIndexOf(fqcnA, '\\');
      && Reader(fqcnA) == fqcnA[4..last]
      && fqcnA == fqcnA[..4] + Reader(fqcnA) + ['\\'] + fqcnA[last + 1..]
      && '\\' !in fqcnA[last + 1..]
  {
    var last := LastIndexOf(fqcnA, '\\');
    assert fqcnA == fqcnA[..4] + fqcnA[4..last] + [fqcnA[last]] + fqcnA[last + 1..];
  }

  /** Without a backslash after position 4, `substring` swaps its bounds: the reader is a piece of the first four characters. */
  lemma ReaderWithoutLateSeparator(fqcnA: string)
    requires LastIndexOf(fqcnA, '\\') < 4
    ensures var last := LastIndexOf(fqcnA, '\\');
      var lo := if last < 0 then 0 else last;
      var hi := if |fqcnA| < 4 then |fqcnA| else 4;
      Reader(fqcnA) == fqcnA[lo..hi]
  {
  }

  /** `\\.\Reader\SomeRegistryThing`: "registry" first occurs at position 15, so the container is dropped. */
  lemma RegistryInsideIsDropped(name: string, unique: string)
    ensures !Kept(RawContainer(name, unique, "\\\\.\\Reader\\SomeRegistryThing"))
  {
    var fqcnA := "\\\\.\\Reader\\SomeRegistryThing";
    var lower := ToLower(fqcnA);
    assert fqcnA[15..23] == "Registry";
    assert lower[15..23] == ToLower(fqcnA[15..23]);
    assert ToLower("Registry") == RegistryMarker;
    assert OccursAt(lower, RegistryMarker, 15);
    assert lower[0] == '\\' && RegistryMarker[0] == 'r';
    assert !OccursAt(lower, RegistryMarker, 0);
  }

  /** `Registry\Foo`: "registry" occurs at position 0, so the container is kept. */
  lemma RegistryAtStartIsKept(name: string, unique: string)
    ensures Kept(RawContainer(name, unique, "Registry\\Foo"))
  {
    var lower := ToLower("Registry\\Foo");
    assert lower == "registry\\foo";
    assert OccursAt(lower, RegistryMarker, 0);
  }

  /** `\\.\HDIMAGE\key`: the reader is `HDIMAGE`. */
  lemma ReaderOfHardwareContainer()
    ensures Reader("\\\\.\\HDIMAGE\\key") == "HDIMAGE"
  {
    var fqcnA := "\\\\.\\HDIMAGE\\key";
    assert fqcnA[11] == '\\' && fqcnA[12] == 'k' && fqcnA[13] == 'e' && fqcnA[14] == 'y' && |fqcnA| == 15;
    assert fqcnA[4..11] == "HDIMAGE";
  }

  /** The display record `getCertificateFromContainer` builds from a certificate. */
  function ItemOf(cert: Certificate): CertificateItem {
    CertificateItem(
      cert.thumbprint, cert.issuerFriendlyName, "1", cert.notAfter, cert.organizationName,
      cert.publicKeyAlgorithm, cert.serialNumber, cert.signatureAlgorithm,
      cert.signatureDigestAlgorithm, cert.subjectFriendlyName, None)
  }

  /**
   * The events of the deferred body of `getCertificateFromContainer`: nothing when
   * the container is unknown or the provider throws (the timer callback throws).
   */
  function CertificateFromContainerBody(
    container: Num, containers: map<Num, Container>, lookup: (string, int) -> Option<Certificate>): seq<Action>
  {
    if container !in containers then []
    else
      match lookup(containers[container].name, ProviderType)
      case None => []
      case Some(cert) => [GetCertificateFromContainerSuccess(container, cert, ItemOf(cert))]
  }

  /**
   * SUCCESS carries the certificate the provider (type 75) returns for the
   * container's unique name, and a display item showing that certificate's
   * thumbprint as `hash` and serial number as `serial`, key "1" and no subject name.
   */
  lemma CertificateFromContainerSpec(
    container: Num, containers: map<Num, Container>, lookup: (string, int) -> Option<Certificate>,
    cert: Certificate, item: CertificateItem)
    ensures CertificateFromContainerBody(container, containers, lookup) == [GetCertificateFromContainerSuccess(container, cert, item)]
      <==>
      && container in containers
      && lookup(containers[container].name, 75) == Some(cert)
      && item.hash == cert.thumbprint && item.serial == cert.serialNumber
      && item.issuerFriendlyName == cert.issuerFriendlyName && item.subjectFriendlyName == cert.subjectFriendlyName
      && item.notAfter == cert.notAfter && item.organizationName == cert.organizationName
      && item.publicKeyAlgorithm == cert.publicKeyAlgorithm && item.signatureAlgorithm == cert.signatureAlgorithm
      && item.signatureDigestAlgorithm == cert.signatureDigestAlgorithm
      && item.key == "1" && item.subjectName == None
    ensures CertificateFromContainerBody(container, containers, lookup) == [] <==>
      container !in containers || lookup(containers[container].name, 75).None?
  {
  }
}
