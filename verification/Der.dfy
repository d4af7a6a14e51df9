/**
 Locating the SubjectPublicKeyInfo in a DER certificate (sections 8.1.3 and 10.1 of
 ITU-T X.690, section 4.1 of RFC 5280).

 The certificate verifier and the TLS loader each carry a copy of the tag-length-value reader;
 the copies are the same code, so it appears here once. The two extractors differ: the
 verifier's insists that the outer two elements are SEQUENCEs, the loader's does not look.
 */
module Der {
  import opened Prelude

  datatype DerError = Truncated | BadLength | OutOfRange | CertNotSequence | TbsNotSequence

  datatype Tlv = Tlv(tag: byte, body: seq<byte>, rest: seq<byte>)

  const SEQUENCE: byte := 0x30
  const VERSION_TAG: byte := 0xA0

  // ---- Lengths ---------------------------------------------------------------------------

  /** Base-256 value, most significant byte first. */
  function BigEndian(digits: seq<byte>): nat {
    if digits == [] then 0 else BigEndian(digits[..|digits| - 1]) * 256 + digits[|digits| - 1]
  }

  /** Exactly `n` base-256 digits of `v`, possibly with leading zeros. */
  function ToBigEndian(v: nat, n: nat): (digits: seq<byte>)
    ensures |digits| == n
  {
    if n == 0 then [] else ToBigEndian(v / 256, n - 1) + [v % 256]
  }

  function Power256(n: nat): nat {
    if n == 0 then 1 else 256 * Power256(n - 1)
  }

  lemma {:induction false} BigEndianRoundTrip(v: nat, n: nat)
    requires v < Power256(n)
    ensures BigEndian(ToBigEndian(v, n)) == v
  {
    if n > 0 {
      BigEndianRoundTrip(v / 256, n - 1);
      var digits := ToBigEndian(v / 256, n - 1);
      assert (digits + [v % 256])[..n - 1] == digits;
    }
  }

  // ---- The reader ------------------------------------------------------------------------

  datatype Header = Header(len: nat, bodyLen: nat)

  /** The header length and the announced body length, or why they cannot be read. */
  function HeaderOf(input: seq<byte>): (h: Result<Header, DerError>)
    ensures h.Ok? ==> 2 <= h.value.len <= |input|
  {
    if |input| < 2 then Err(Truncated)
    else if input[1] < 0x80 then Ok(Header(2, input[1]))
    else
      var n := input[1] - 0x80;
      if n == 0 || n > 4 || |input| < 2 + n then Err(BadLength)
      else Ok(Header(2 + n, BigEndian(input[2..2 + n])))
  }

  function TlvOf(input: seq<byte>): (r: Result<Tlv, DerError>)
    ensures r.Ok? ==> |r.value.rest| + 2 <= |input|
  {
    match HeaderOf(input)
    case Err(e) => Err(e)
    case Ok(h) =>
      if |input| < h.len + h.bodyLen then Err(OutOfRange)
      else Ok(Tlv(input[0], input[h.len..h.len + h.bodyLen], input[h.len + h.bodyLen..]))
  }

  method ReadTlv(input: seq<byte>) returns (r: Result<Tlv, DerError>)
    ensures r == TlvOf(input)
  {
    if |input| < 2 {
      return Err(Truncated);
    }
    var tag := input[0];
    var lenByte := input[1];
    var hdr, len: nat := 2, lenByte;
    if lenByte >= 0x80 {
      var n := lenByte - 0x80;
      if n == 0 || n > 4 || |input| < 2 + n {
        return Err(BadLength);
      }
      len := 0;
      for i := 0 to n
        invariant len == BigEndian(input[2..2 + i])
      {
        assert input[2..2 + (i + 1)][..i] == input[2..2 + i];
        len := len * 256 + input[2 + i];
      }
      hdr := 2 + n;
    }
    if |input| < hdr + len {
      return Err(OutOfRange);
    }
    return Ok(Tlv(tag, input[hdr..hdr + len], input[hdr + len..]));
  }

  function DerHeaderLen(input: seq<byte>): (n: Result<nat, DerError>) {
    if |input| < 2 then Err(Truncated)
    else if input[1] < 0x80 then Ok(2)
    else Ok(2 + (input[1] - 0x80))
  }

  /** Wherever the reader succeeds, header length and body add up to the element it consumed. */
  lemma {:induction false} HeaderLenAgrees(input: seq<byte>)
    requires TlvOf(input).Ok?
    ensures DerHeaderLen(input).Ok?
    ensures var t := TlvOf(input).value;
            var n := DerHeaderLen(input).value + |t.body|;
            n <= |input| && input[..n] + t.rest == input && input[DerHeaderLen(input).value..n] == t.body
  {
  }

  // ---- The encoder: every definite form the reader understands ---------------------------

  /** An element and the number of length octets it is written with (0 is the short form). */
  datatype Element = Element(tag: byte, body: seq<byte>, lengthOctets: nat) {
    predicate Encodable() {
      if lengthOctets == 0 then |body| < 0x80
      else lengthOctets <= 4 && |body| < Power256(lengthOctets)
    }

    function Encode(): (s: seq<byte>)
      requires Encodable()
      ensures |s| >= 2 && s[0] == tag
    {
      if lengthOctets == 0 then [tag, |body|] + body
      else [tag, 0x80 + lengthOctets] + ToBigEndian(|body|, lengthOctets) + body
    }
  }

  /** Reading back an encoded element, whatever follows it. */
  lemma {:induction false} EncodedReadsBack(e: Element, rest: seq<byte>)
    requires e.Encodable()
    ensures TlvOf(e.Encode() + rest) == Ok(Tlv(e.tag, e.body, rest))
  {
    var input := e.Encode() + rest;
    var n := e.lengthOctets;
    if n == 0 {
      assert input[2..2 + |e.body|] == e.body;
      assert input[2 + |e.body|..] == rest;
    } else {
      var digits := ToBigEndian(|e.body|, n);
      BigEndianRoundTrip(|e.body|, n);
      assert input[1] == 0x80 + n;
      assert input[2..2 + n] == digits;
      assert input[2 + n..2 + n + |e.body|] == e.body;
      assert input[2 + n + |e.body|..] == rest;
    }
  }

  lemma {:induction false} BigEndianReads(digits: seq<byte>)
    ensures BigEndian(digits) < Power256(|digits|) && ToBigEndian(BigEndian(digits), |digits|) == digits
  {
    if digits != [] {
      var n := |digits| - 1;
      BigEndianReads(digits[..n]);
      assert BigEndian(digits) / 256 == BigEndian(digits[..n]) && BigEndian(digits) % 256 == digits[n];
      assert digits == digits[..n] + [digits[n]];
    }
  }

  /** The reader accepts nothing else: what it reads is the encoding of an element, followed by the rest. */
  lemma {:induction false} ReadsOnlyEncodings(input: seq<byte>) returns (e: Element)
    requires TlvOf(input).Ok?
    ensures e.tag == TlvOf(input).value.tag && e.body == TlvOf(input).value.body
    ensures e.Encodable() && e.Encode() + TlvOf(input).value.rest == input
  {
    var t := TlvOf(input).value;
    var n := if input[1] < 0x80 then 0 else input[1] - 0x80;
    e := Element(t.tag, t.body, n);
    if n > 0 {
      BigEndianReads(input[2..2 + n]);
    }
    hide BigEndian, ToBigEndian, Power256;
    var len := HeaderOf(input).value.len;
    assert input == input[..len] + t.body + t.rest;
    if n > 0 {
      assert input[..len] == [t.tag, 0x80 + n] + input[2..2 + n];
    } else {
      assert input[..len] == [t.tag, |t.body|];
    }
  }

  function EncodeAll(es: seq<Element>): seq<byte>
    requires forall i :: 0 <= i < |es| ==> es[i].Encodable()
  {
    if es == [] then [] else es[0].Encode() + EncodeAll(es[1..])
  }

  // ---- Walking to the key ----------------------------------------------------------------

  /** Skips `n` elements. */
  function Skip(input: seq<byte>, n: nat): (r: Result<seq<byte>, DerError>) {
    if n == 0 then Ok(input)
    else match TlvOf(input)
      case Err(e) => Err(e)
      case Ok(t) => Skip(t.rest, n - 1)
  }

  function SkipVersion(tbs: seq<byte>): Result<seq<byte>, DerError> {
    if tbs != [] && tbs[0] == VERSION_TAG then Skip(tbs, 1) else Ok(tbs)
  }

  /** The first element of the input with its header. */
  function FirstElement(input: seq<byte>): Result<seq<byte>, DerError> {
    match TlvOf(input)
    case Err(e) => Err(if |input| < 2 then Truncated else e)
    case Ok(t) => Ok(input[..|input| - |t.rest|])
  }

  /** The key inside a to-be-signed part: an optional version, five elements, then the key. */
  function SpkiInTbs(tbs: seq<byte>): Result<seq<byte>, DerError> {
    match SkipVersion(tbs)
    case Err(e) => Err(e)
    case Ok(fields) =>
      match Skip(fields, 5)
      case Err(e) => Err(e)
      case Ok(atKey) => FirstElement(atKey)
  }

  method WalkTbs(tbs: seq<byte>) returns (r: Result<seq<byte>, DerError>)
    ensures r == SpkiInTbs(tbs)
  {
    var rest := tbs;
    if rest != [] && rest[0] == VERSION_TAG {
      var t := ReadTlv(rest);
      if t.Err? {
        return Err(t.error);
      }
      assert Skip(rest, 1) == Skip(t.value.rest, 0);
      rest := t.value.rest;
    }
    ghost var fields := rest;
    for i := 0 to 5
      invariant Skip(fields, 5) == Skip(rest, 5 - i)
    {
      var t := ReadTlv(rest);
      if t.Err? {
        return Err(t.error);
      }
      rest := t.value.rest;
    }
    var contentOff := DerHeaderLen(rest);
    if contentOff.Err? {
      return Err(contentOff.error);
    }
    var t := ReadTlv(rest);
    if t.Err? {
      return Err(t.error);
    }
    HeaderLenAgrees(rest);
    return Ok(rest[..contentOff.value + |t.value.body|]);
  }

  /** The verifier's extractor: the outer two elements must be SEQUENCEs. */
  method ExtractSpkiChecked(cert: seq<byte>) returns (r: Result<seq<byte>, DerError>)
    ensures r == SpkiChecked(cert)
  {
    var outer := ReadTlv(cert);
    if outer.Err? {
      return Err(outer.error);
    }
    if outer.value.tag != SEQUENCE {
      return Err(CertNotSequence);
    }
    var tbs := ReadTlv(outer.value.body);
    if tbs.Err? {
      return Err(tbs.error);
    }
    if tbs.value.tag != SEQUENCE {
      return Err(TbsNotSequence);
    }
    r := WalkTbs(tbs.value.body);
  }

  /** The loader's extractor: tags of the outer two elements are not looked at. */
  method ExtractSpkiUnchecked(cert: seq<byte>) returns (r: Result<seq<byte>, DerError>)
    ensures r == SpkiUnchecked(cert)
  {
    var outer := ReadTlv(cert);
    if outer.Err? {
      return Err(outer.error);
    }
    var tbs := ReadTlv(outer.value.body);
    if tbs.Err? {
      return Err(tbs.error);
    }
    r := WalkTbs(tbs.value.body);
  }

  function SpkiChecked(cert: seq<byte>): Result<seq<byte>, DerError> {
    match TlvOf(cert)
    case Err(e) => Err(e)
    case Ok(outer) =>
      if outer.tag != SEQUENCE then Err(CertNotSequence)
      else match TlvOf(outer.body)
        case Err(e) => Err(e)
        case Ok(tbs) => if tbs.tag != SEQUENCE then Err(TbsNotSequence) else SpkiInTbs(tbs.body)
  }

  function SpkiUnchecked(cert: seq<byte>): Result<seq<byte>, DerError> {
    match TlvOf(cert)
    case Err(e) => Err(e)
    case Ok(outer) =>
      match TlvOf(outer.body)
      case Err(e) => Err(e)
      case Ok(tbs) => SpkiInTbs(tbs.body)
  }

  /** The verifier accepts exactly what the loader accepts under two SEQUENCE tags, and returns the same bytes. */
  lemma {:induction false} ExtractorsAgree(cert: seq<byte>, spki: seq<byte>)
    ensures SpkiChecked(cert) == Ok(spki) <==>
            && SpkiUnchecked(cert) == Ok(spki)
            && TlvOf(cert).value.tag == SEQUENCE
            && TlvOf(TlvOf(cert).value.body).value.tag == SEQUENCE
  {
  }

  // ---- Certificates ----------------------------------------------------------------------

  /** The fields of a certificate as encoded elements, and whatever follows the key. */
  datatype Certificate = Certificate(
    version: Option<Element>, fields: seq<Element>, spki: Element, afterKey: seq<byte>,
    tbsOctets: nat, afterTbs: seq<byte>, certOctets: nat, afterCert: seq<byte>)
  {
    predicate Shaped() {
      && (version.Some? ==> version.value.Encodable() && version.value.tag == VERSION_TAG)
      && |fields| == 5
      && (forall i :: 0 <= i < 5 ==> fields[i].Encodable())
      && (version.None? ==> fields[0].tag != VERSION_TAG)
      && spki.Encodable()
    }

    function TbsBody(): seq<byte>
      requires Shaped()
    {
      (if version.Some? then version.value.Encode() else []) + (EncodeAll(fields) + (spki.Encode() + afterKey))
    }

    function Tbs(): Element
      requires Shaped()
    {
      Element(SEQUENCE, TbsBody(), tbsOctets)
    }

    function Cert(): Element
      requires Shaped() && Tbs().Encodable()
    {
      Element(SEQUENCE, Tbs().Encode() + afterTbs, certOctets)
    }

    predicate Encodable() {
      Shaped() && Tbs().Encodable() && Cert().Encodable()
    }

    function Encode(): seq<byte>
      requires Encodable()
    {
      Cert().Encode() + afterCert
    }
  }

  lemma {:induction false} SkipEncoded(es: seq<Element>, rest: seq<byte>)
    requires forall i :: 0 <= i < |es| ==> es[i].Encodable()
    ensures Skip(EncodeAll(es) + rest, |es|) == Ok(rest)
  {
    hide TlvOf;
    if es == [] {
      assert EncodeAll(es) + rest == rest;
    } else {
      var more := EncodeAll(es[1..]) + rest;
      assert EncodeAll(es) + rest == es[0].Encode() + more;
      EncodedReadsBack(es[0], more);
      SkipEncoded(es[1..], rest);
    }
  }

  lemma {:induction false} FirstElementEncoded(e: Element, rest: seq<byte>)
    requires e.Encodable()
    ensures FirstElement(e.Encode() + rest) == Ok(e.Encode())
  {
    EncodedReadsBack(e, rest);
    var input := e.Encode() + rest;
    assert input[..|input| - |rest|] == e.Encode();
  }

  lemma {:induction false} SpkiOfEncodedTbs(c: Certificate)
    requires c.Shaped()
    ensures SpkiInTbs(c.TbsBody()) == Ok(c.spki.Encode())
  {
    var fields := EncodeAll(c.fields) + (c.spki.Encode() + c.afterKey);
    if c.version.Some? {
      EncodedReadsBack(c.version.value, fields);
      assert Skip(c.TbsBody(), 1) == Skip(fields, 0);
    } else {
      assert c.TbsBody() == fields;
      assert fields[0] == c.fields[0].Encode()[0];
    }
    SkipEncoded(c.fields, c.spki.Encode() + c.afterKey);
    FirstElementEncoded(c.spki, c.afterKey);
  }

  /** From any certificate, in any definite length form, both extractors return exactly the encoded key. */
  lemma {:induction false} SpkiOfEncodedCertificate(c: Certificate)
    requires c.Encodable()
    ensures SpkiChecked(c.Encode()) == Ok(c.spki.Encode())
    ensures SpkiUnchecked(c.Encode()) == Ok(c.spki.Encode())
  {
    EncodedReadsBack(c.Cert(), c.afterCert);
    EncodedReadsBack(c.Tbs(), c.afterTbs);
    SpkiOfEncodedTbs(c);
  }

  // ---- What an accepted certificate looks like -------------------------------------------

  /** `part` is the slice of `whole` that starts at `at`. */
  predicate SliceAt(whole: seq<byte>, at: nat, part: seq<byte>) {
    at + |part| <= |whole| && whole[at..at + |part|] == part
  }

  lemma {:induction false} SliceCompose(whole: seq<byte>, at: nat, part: seq<byte>, at': nat, inner: seq<byte>)
    requires SliceAt(whole, at, part) && SliceAt(part, at', inner)
    ensures SliceAt(whole, at + at', inner)
  {
    forall i | 0 <= i < |inner|
      ensures whole[at + at'..at + at' + |inner|][i] == inner[i]
    {
      assert inner[i] == part[at'..at' + |inner|][i] == part[at' + i];
      assert part[at' + i] == whole[at..at + |part|][at' + i];
    }
  }

  lemma {:induction false} TlvSlices(input: seq<byte>)
    requires TlvOf(input).Ok?
    ensures HeaderOf(input).Ok?
    ensures var t := TlvOf(input).value;
            && SliceAt(input, HeaderOf(input).value.len, t.body)
            && SliceAt(input, |input| - |t.rest|, t.rest)
            && SliceAt(input, 0, input[..|input| - |t.rest|])
  {
  }

  lemma {:induction false} SkipSlices(input: seq<byte>, n: nat) returns (at: nat)
    requires Skip(input, n).Ok?
    ensures SliceAt(input, at, Skip(input, n).value)
    decreases n
  {
    hide TlvOf, HeaderOf;
    if n == 0 {
      at := 0;
    } else {
      var t := TlvOf(input).value;
      TlvSlices(input);
      var inner := SkipSlices(t.rest, n - 1);
      at := |input| - |t.rest| + inner;
      SliceCompose(input, |input| - |t.rest|, t.rest, inner, Skip(input, n).value);
    }
  }

  /** Whatever is accepted, the answer is one contiguous element inside the certificate. */
  lemma {:induction false} SpkiIsASlice(cert: seq<byte>) returns (at: nat)
    requires SpkiUnchecked(cert).Ok?
    ensures SliceAt(cert, at, SpkiUnchecked(cert).value)
    ensures TlvOf(SpkiUnchecked(cert).value).Ok? && TlvOf(SpkiUnchecked(cert).value).value.rest == []
  {
    hide TlvOf, HeaderOf, SliceAt, SpkiInTbs;
    var outer := TlvOf(cert).value;
    var tbs := TlvOf(outer.body).value;
    TlvSlices(cert);
    TlvSlices(outer.body);
    var a := HeaderOf(cert).value.len;
    var b := HeaderOf(outer.body).value.len;
    SliceCompose(cert, a, outer.body, b, tbs.body);
    var inTbs := SpkiInTbsIsASlice(tbs.body);
    SliceCompose(cert, a + b, tbs.body, inTbs, SpkiUnchecked(cert).value);
    at := a + b + inTbs;
  }

  lemma {:induction false} SpkiInTbsIsASlice(tbs: seq<byte>) returns (at: nat)
    requires SpkiInTbs(tbs).Ok?
    ensures SliceAt(tbs, at, SpkiInTbs(tbs).value)
    ensures TlvOf(SpkiInTbs(tbs).value).Ok? && TlvOf(SpkiInTbs(tbs).value).value.rest == []
  {
    hide TlvOf, HeaderOf, SliceAt, Skip;
    var fields := SkipVersion(tbs).value;
    var a := SkipVersionSlices(tbs);
    var b := SkipSlices(fields, 5);
    var atKey := Skip(fields, 5).value;
    SliceCompose(tbs, a, fields, b, atKey);
    TlvSlices(atKey);
    FirstElementAlone(atKey);
    SliceCompose(tbs, a + b, atKey, 0, FirstElement(atKey).value);
    at := a + b;
  }

  lemma {:induction false} SkipVersionSlices(tbs: seq<byte>) returns (at: nat)
    requires SkipVersion(tbs).Ok?
    ensures SliceAt(tbs, at, SkipVersion(tbs).value)
  {
    at := 0;
    if tbs != [] && tbs[0] == VERSION_TAG {
      at := SkipSlices(tbs, 1);
    }
  }

  lemma {:induction false} FirstElementAlone(input: seq<byte>)
    requires TlvOf(input).Ok?
    ensures var e := input[..|input| - |TlvOf(input).value.rest|];
            TlvOf(e) == Ok(TlvOf(input).value.(rest := []))
  {
    var h := HeaderOf(input).value;
    var e := input[..h.len + h.bodyLen];
    assert e == input[..|input| - |TlvOf(input).value.rest|];
    assert input[1] >= 0x80 ==> e[2..h.len] == input[2..h.len];
    assert e[h.len..h.len + h.bodyLen] == input[h.len..h.len + h.bodyLen];
  }
}
