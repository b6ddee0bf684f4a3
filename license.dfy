/**
 * The license-token check of `loadLicense`: the text of the license file is
 * split on dots, its second segment is decoded as JSON, and the license is
 * accepted only when all six registered claims of section 4.1 of RFC 7519 are
 * truthy. The token's signature segment is never looked at.
 */
module License {
  import opened Wrappers
  import opened Js
  import opened Entities

  /** The claims a license must carry, in the order the source tests them. */
  const ClaimKeys: seq<string> := ["exp", "aud", "iat", "iss", "jti", "sub"]

  /** A claims decoder: base64 decoding then `JSON.parse`; `None` when it throws. */
  type Decoder = string -> Option<Json>

  /** `data.split(".")[1]`: `None` (undefined) when the text has no dot. */
  function ClaimsSegment(data: string): Option<string> {
    var parts := Split(data, '.');
    if |parts| > 1 then Some(parts[1]) else None
  }

  /** `s` reads `header.segment` followed by nothing or by a dot and more, with no dot in header or segment. */
  ghost predicate SegmentLayout(s: string, header: string, segment: string, tail: string) {
    && '.' !in header
    && '.' !in segment
    && (tail == [] || tail[0] == '.')
    && s == header + ['.'] + segment + tail
  }

  /** The second split segment, when there is one, sits between the first dot and the next dot (or the end). */
  lemma {:induction false} SegmentHasLayout(s: string)
    requires ClaimsSegment(s).Some?
    ensures exists header, tail :: SegmentLayout(s, header, ClaimsSegment(s).value, tail)
  {
    var parts := Split(s, '.');
    JoinSplit(s, '.');
    var rest := Join(parts[1..], '.');
    assert s == parts[0] + ['.'] + rest;
    var tail: string := if |parts| == 2 then [] else ['.'] + Join(parts[2..], '.');
    assert parts[1..][1..] == parts[2..];
    assert rest == parts[1] + tail;
    assert SegmentLayout(s, parts[0], parts[1], tail);
  }

  /** Any text laid out as `header.segment[.tail]` has `segment` as its second split segment. */
  lemma {:induction false} LayoutGivesSegment(s: string, header: string, segment: string, tail: string)
    requires SegmentLayout(s, header, segment, tail)
    ensures ClaimsSegment(s) == Some(segment)
  {
    if tail == [] {
      assert s == header + ['.'] + segment;
      SplitHead(header, '.', segment);
      SplitNoSep(segment, '.');
    } else {
      var t := tail[1..];
      assert tail == ['.'] + t;
      assert s == header + ['.'] + (segment + ['.'] + t);
      SplitHead(header, '.', segment + ['.'] + t);
      SplitHead(segment, '.', t);
    }
  }

  /** The second split segment is exactly the text between the first dot and the next dot (or the end). */
  lemma ClaimsSegmentSpec(s: string, segment: string)
    ensures ClaimsSegment(s) == Some(segment) <==> exists header, tail :: SegmentLayout(s, header, segment, tail)
  {
    if ClaimsSegment(s) == Some(segment) {
      SegmentHasLayout(s);
    }
    if exists header, tail :: SegmentLayout(s, header, segment, tail) {
      var header, tail :| SegmentLayout(s, header, segment, tail);
      LayoutGivesSegment(s, header, segment, tail);
    }
  }

  /**
   * `parsed.exp && parsed.aud && parsed.iat && parsed.iss && parsed.jti && parsed.sub`,
   * evaluated left to right: `None` when a property read throws, otherwise whether all are truthy.
   */
  function ClaimsTruthy(parsed: Json, keys: seq<string>): Option<bool> {
    if keys == [] then Some(true)
    else
      match GetProp(parsed, keys[0])
      case Throws => None
      case Undefined => Some(false)
      case Value(v) => if Truthy(v) then ClaimsTruthy(parsed, keys[1..]) else Some(false)
  }

  /** The claim test throws exactly on `null`, and passes exactly for an object whose every claim is truthy. */
  lemma {:induction false} ClaimsTruthySpec(parsed: Json, keys: seq<string>)
    requires keys != []
    ensures ClaimsTruthy(parsed, keys) == None <==> parsed.JNull?
    ensures ClaimsTruthy(parsed, keys) == Some(true) <==>
              parsed.JObj? && forall k :: k in keys ==> k in parsed.fields && Truthy(parsed.fields[k])
    decreases |keys|
  {
    if |keys| > 1 {
      ClaimsTruthySpec(parsed, keys[1..]);
      assert forall k :: k in keys <==> k == keys[0] || k in keys[1..];
    }
  }

  /**
   * The events the deferred body of `loadLicense` dispatches, given the license
   * file's content (`None` when the file does not exist).
   */
  function LoadLicenseBody(file: Option<string>, decode: Decoder): (events: seq<Action>)
    ensures 1 <= |events| <= 2
    ensures forall k :: 0 <= k < |events| - 1 ==> events[k] == LoadLicenseFail
  {
    if file.None? || file.value == "" then [LoadLicenseFail]
    else
      match ClaimsSegment(file.value)
      case None => [LoadLicenseFail]
      case Some(segment) =>
        if segment == "" then [LoadLicenseFail]
        else
          match decode(segment)
          case None => [LoadLicenseFail, LoadLicenseFail]
          case Some(parsed) =>
            match ClaimsTruthy(parsed, ClaimKeys)
            case None => [LoadLicenseFail, LoadLicenseFail]
            case Some(ok) => if ok then [LoadLicenseSuccess(file.value, parsed)] else [LoadLicenseFail]
  }

  /** The license text `data` is acceptable with claim set `lic`. */
  ghost predicate Accepted(data: string, decode: Decoder, lic: Json) {
    exists header, segment, tail ::
      && SegmentLayout(data, header, segment, tail)
      && segment != ""
      && decode(segment) == Some(lic)
      && lic.JObj?
      && forall k :: k in ClaimKeys ==> k in lic.fields && Truthy(lic.fields[k])
  }

  /** Decoding the claims segment throws, or it decodes to `null` and reading a claim throws. */
  ghost predicate DecodeThrows(data: string, decode: Decoder) {
    exists header, segment, tail ::
      && SegmentLayout(data, header, segment, tail)
      && segment != ""
      && (decode(segment).None? || decode(segment) == Some(JNull))
  }

  /** `LOAD_LICENSE + SUCCESS` with `{data, lic}` is dispatched exactly when the text is acceptable with `lic`. */
  lemma LicenseAccepted(data: string, decode: Decoder, lic: Json)
    ensures LoadLicenseBody(Some(data), decode) == [LoadLicenseSuccess(data, lic)] <==> Accepted(data, decode, lic)
  {
    if Accepted(data, decode, lic) {
      var header, segment, tail :|
        && SegmentLayout(data, header, segment, tail)
        && segment != ""
        && decode(segment) == Some(lic)
        && lic.JObj?
        && forall k :: k in ClaimKeys ==> k in lic.fields && Truthy(lic.fields[k]);
      ClaimsSegmentSpec(data, segment);
      ClaimsTruthySpec(lic, ClaimKeys);
    }
    if LoadLicenseBody(Some(data), decode) == [LoadLicenseSuccess(data, lic)] {
      var segment := ClaimsSegment(data).value;
      ClaimsSegmentSpec(data, segment);
      ClaimsTruthySpec(lic, ClaimKeys);
    }
  }

  /** Otherwise the last event is `LOAD_LICENSE + FAIL`. */
  lemma LicenseRejected(file: Option<string>, decode: Decoder)
    ensures var events := LoadLicenseBody(file, decode);
      events[|events| - 1] == LoadLicenseFail <==> file.None? || forall lic :: !Accepted(file.value, decode, lic)
  {
    var events := LoadLicenseBody(file, decode);
    if file.Some? {
      if events[|events| - 1] != LoadLicenseFail {
        LicenseAccepted(file.value, decode, events[0].lic);
      }
      forall lic | Accepted(file.value, decode, lic)
        ensures events[|events| - 1] != LoadLicenseFail
      {
        LicenseAccepted(file.value, decode, lic);
      }
    }
  }

  /** `LOAD_LICENSE + FAIL` is dispatched twice (in the catch and at the end) exactly when decoding throws. */
  lemma LicenseDoubleFail(file: Option<string>, decode: Decoder)
    ensures |LoadLicenseBody(file, decode)| == 2 <==> file.Some? && DecodeThrows(file.value, decode)
  {
    if file.Some? {
      var data := file.value;
      if DecodeThrows(data, decode) {
        var header, segment, tail :|
          && SegmentLayout(data, header, segment, tail)
          && segment != ""
          && (decode(segment).None? || decode(segment) == Some(JNull));
        ClaimsSegmentSpec(data, segment);
        if decode(segment).Some? {
          ClaimsTruthySpec(JNull, ClaimKeys);
        }
      }
      if |LoadLicenseBody(file, decode)| == 2 {
        var segment := ClaimsSegment(data).value;
        ClaimsSegmentSpec(data, segment);
        if decode(segment).Some? {
          ClaimsTruthySpec(decode(segment).value, ClaimKeys);
        }
      }
    }
  }

  /** Acceptance never depends on what follows the claims segment: the token's signature is not checked. */
  lemma SignatureIgnored(header: string, segment: string, sig1: string, sig2: string, decode: Decoder, lic: Json)
    requires '.' !in header && '.' !in segment
    ensures Accepted(header + "." + segment + "." + sig1, decode, lic) <==>
            Accepted(header + "." + segment + "." + sig2, decode, lic)
  {
    var s1, s2 := header + "." + segment + "." + sig1, header + "." + segment + "." + sig2;
    assert SegmentLayout(s1, header, segment, "." + sig1);
    assert SegmentLayout(s2, header, segment, "." + sig2);
    ClaimsSegmentSpec(s1, segment);
    ClaimsSegmentSpec(s2, segment);
    forall seg, h, t | SegmentLayout(s1, h, seg, t) || SegmentLayout(s2, h, seg, t)
      ensures seg == segment
    {
      ClaimsSegmentSpec(s1, seg);
      ClaimsSegmentSpec(s2, seg);
    }
  }
}
