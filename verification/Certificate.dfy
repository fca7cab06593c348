/** When a certificate ends, read from its DER (section 4.1 of RFC 5280). */
module Certificate {
  import opened Wrappers
  import opened Bytes
  import opened Der
  import opened CivilTime

  const VERSION: Byte := 0xA0
  const SKIPPED := ["serial number", "signature", "issuer"]

  /** What `NotAfter` computes: the end in seconds, or the part that could not be read. */
  function NotAfterOf(der: seq<Byte>): Result<int, string> {
    match Take(der)
    case None => Err("not a DER sequence")
    case Some((_, cert, _)) =>
      match Take(cert)
      case None => Err("no tbsCertificate")
      case Some((_, tbs, _)) =>
        match PastVersion(tbs)
        case Err(e) => Err(e)
        case Ok(fields) =>
          match PastFields(fields, SKIPPED)
          case Err(e) => Err(e)
          case Ok(rest) => ValidityEnd(rest)
  }

  function PastVersion(tbs: seq<Byte>): Result<seq<Byte>, string> {
    if tbs != [] && tbs[0] == VERSION then PastFields(tbs, ["version"]) else Ok(tbs)
  }

  function PastFields(rest: seq<Byte>, names: seq<string>): Result<seq<Byte>, string>
    decreases |names|
  {
    if names == [] then Ok(rest)
    else
      match Take(rest)
      case None => Err(names[0])
      case Some((_, _, after)) => PastFields(after, names[1..])
  }

  function ValidityEnd(rest: seq<Byte>): Result<int, string> {
    match Take(rest)
    case None => Err("validity")
    case Some((_, validity, _)) =>
      match Take(validity)
      case None => Err("notBefore")
      case Some((_, _, after)) =>
        match Take(after)
        case None => Err("notAfter")
        case Some((tag, time, _)) =>
          match Asn1Time(tag, time)
          case None => Err("notAfter")
          case Some(t) => Ok(t)
  }

  method NotAfter(der: seq<Byte>) returns (r: Result<int, string>)
    ensures r == NotAfterOf(der)
  {
    var cert := Take(der);
    if cert.None? { return Err("not a DER sequence"); }
    var tbs := Take(cert.value.1);
    if tbs.None? { return Err("no tbsCertificate"); }
    var rest := tbs.value.1;
    if rest != [] && rest[0] == VERSION {
      var version := Take(rest);
      if version.None? { return Err("version"); }
      rest := version.value.2;
      assert PastFields(rest, [])== Ok(rest);
    }
    ghost var fields := rest;
    for i := 0 to |SKIPPED|
      invariant PastFields(fields, SKIPPED) == PastFields(rest, SKIPPED[i..])
    {
      var field := Take(rest);
      if field.None? { return Err(SKIPPED[i]); }
      rest := field.value.2;
    }
    var validity := Take(rest);
    if validity.None? { return Err("validity"); }
    var before := Take(validity.value.1);
    if before.None? { return Err("notBefore"); }
    var after := Take(before.value.2);
    if after.None? { return Err("notAfter"); }
    var t := Asn1Time(after.value.0, after.value.1);
    r := if t.None? then Err("notAfter") else Ok(t.value);
  }

  // ---- The certificates it reads -----------------------------------------------

  /** Any nesting of elements of the shape section 4.1 of RFC 5280 gives a certificate.
      Each length is written in any definite form; `outer`, `tbs` and `validity` say which
      tag and form wrap the parts, and the `…Rest` bytes are whatever follows in each. */
  datatype Cert = Cert(
    version: Option<Element>, serial: Element, signature: Element, issuer: Element,
    notBefore: Element, notAfter: Element,
    outer: (Byte, nat), tbs: (Byte, nat), validity: (Byte, nat),
    validityRest: seq<Byte>, tbsRest: seq<Byte>, certRest: seq<Byte>, after: seq<Byte>)
  {
    function Validity(): Element
      requires notBefore.Valid() && notAfter.Valid()
    {
      Element(validity.0, validity.1, notBefore.Encode() + (notAfter.Encode() + validityRest))
    }

    ghost predicate PartsValid() {
      && (version.Some? ==> version.value.Valid() && version.value.tag == VERSION)
      && serial.Valid() && signature.Valid() && issuer.Valid()
      && notBefore.Valid() && notAfter.Valid()
      && Validity().Valid()
    }

    /** Serial number to the end of the tbsCertificate. */
    function Fields(): seq<Byte>
      requires PartsValid()
    {
      serial.Encode() + (signature.Encode() + (issuer.Encode() + (Validity().Encode() + tbsRest)))
    }

    function Tbs(): Element
      requires PartsValid()
    {
      Element(tbs.0, tbs.1, (if version.Some? then version.value.Encode() else []) + Fields())
    }

    function Outer(): Element
      requires PartsValid() && Tbs().Valid()
    {
      Element(outer.0, outer.1, Tbs().Encode() + certRest)
    }

    /** A version is told from a serial number by its tag, as the source tells them. */
    ghost predicate Valid() {
      && PartsValid() && Tbs().Valid() && Outer().Valid()
      && (version.None? ==> serial.tag != VERSION)
    }

    function Encode(): seq<Byte>
      requires Valid()
    {
      Outer().Encode() + after
    }
  }

  lemma PastOneField(e: Element, rest: seq<Byte>, names: seq<string>)
    requires e.Valid() && names != []
    ensures PastFields(e.Encode() + rest, names) == PastFields(rest, names[1..])
  {
    TakeInvertsEncode(e, rest);
  }

  lemma PastFieldsInverts(c: Cert)
    requires c.PartsValid()
    ensures PastFields(c.Fields(), SKIPPED) == Ok(c.Validity().Encode() + c.tbsRest)
  {
    var validity := c.Validity().Encode() + c.tbsRest;
    var issuer := c.issuer.Encode() + validity;
    PastOneField(c.serial, c.signature.Encode() + issuer, SKIPPED);
    PastOneField(c.signature, issuer, SKIPPED[1..]);
    PastOneField(c.issuer, validity, SKIPPED[1..][1..]);
    assert PastFields(validity, SKIPPED[1..][1..][1..]) == Ok(validity);
  }

  lemma PastVersionInverts(c: Cert)
    requires c.PartsValid() && (c.version.None? ==> c.serial.tag != VERSION)
    ensures PastVersion(c.Tbs().content) == Ok(c.Fields())
  {
    var tbs := c.Tbs().content;
    if c.version.Some? {
      TakeInvertsEncode(c.version.value, c.Fields());
      assert tbs[0] == VERSION;
      assert PastFields(c.Fields(), ["version"][1..]) == Ok(c.Fields());
    } else {
      assert tbs == c.Fields();
      assert tbs[0] == c.serial.tag;
    }
  }

  lemma ValidityEndInverts(c: Cert)
    requires c.PartsValid()
    ensures ValidityEnd(c.Validity().Encode() + c.tbsRest) ==
            match Asn1Time(c.notAfter.tag, c.notAfter.content) case None => Err("notAfter") case Some(t) => Ok(t)
  {
    TakeInvertsEncode(c.Validity(), c.tbsRest);
    TakeInvertsEncode(c.notBefore, c.notAfter.Encode() + c.validityRest);
    TakeInvertsEncode(c.notAfter, c.validityRest);
  }

  /** Whatever the other fields hold, and in whatever form every length is written, a
      certificate's end is what its `notAfter` says. */
  lemma NotAfterReadsItsField(c: Cert)
    requires c.Valid()
    ensures NotAfterOf(c.Encode()) ==
            match Asn1Time(c.notAfter.tag, c.notAfter.content) case None => Err("notAfter") case Some(t) => Ok(t)
  {
    TakeInvertsEncode(c.Outer(), c.after);
    TakeInvertsEncode(c.Tbs(), c.certRest);
    PastVersionInverts(c);
    PastFieldsInverts(c);
    ValidityEndInverts(c);
  }

  /** The whole way: a certificate an authority wrote to end at `d` is read to end at `d`. */
  lemma NotAfterReadsTheDate(c: Cert, d: DateTime)
    requires c.Valid() && d.Valid() && 1950 <= d.year < 10_000
    requires (c.notAfter.tag, c.notAfter.content) == PrintTime(d)
    ensures NotAfterOf(c.Encode()) == Ok(d.Epoch())
  {
    NotAfterReadsItsField(c);
    TimeRoundTrip(d);
  }

  lemma OnlyFields(fields: seq<Byte>) returns (serial: Element, signature: Element, issuer: Element)
    requires PastFields(fields, SKIPPED).Ok?
    ensures serial.Valid() && signature.Valid() && issuer.Valid()
    ensures fields == serial.Encode() + (signature.Encode() + (issuer.Encode() + PastFields(fields, SKIPPED).value))
  {
    var fromSignature := Take(fields).value.2;
    assert PastFields(fromSignature, SKIPPED[1..]) == PastFields(fields, SKIPPED);
    var fromIssuer := Take(fromSignature).value.2;
    assert PastFields(fromIssuer, SKIPPED[1..][1..]) == PastFields(fields, SKIPPED);
    var rest := Take(fromIssuer).value.2;
    assert PastFields(rest, SKIPPED[1..][1..][1..]) == PastFields(fields, SKIPPED);
    TakeSplitsItsInput(fields);
    TakeSplitsItsInput(fromSignature);
    TakeSplitsItsInput(fromIssuer);
    serial, signature, issuer := Head(fields), Head(fromSignature), Head(fromIssuer);
  }

  lemma OnlyVersion(tbs: seq<Byte>) returns (version: Option<Element>)
    requires PastVersion(tbs).Ok?
    ensures version.Some? ==> version.value.Valid() && version.value.tag == VERSION
    ensures tbs == (if version.Some? then version.value.Encode() else []) + PastVersion(tbs).value
    ensures version.None? ==> tbs == [] || tbs[0] != VERSION
  {
    if tbs != [] && tbs[0] == VERSION {
      TakeSplitsItsInput(tbs);
      version := Some(Head(tbs));
      assert PastFields(Take(tbs).value.2, ["version"][1..]) == Ok(Take(tbs).value.2);
    } else {
      version := None;
    }
  }

  lemma OnlyValidity(rest: seq<Byte>)
    returns (shape: (Byte, nat), notBefore: Element, notAfter: Element, validityRest: seq<Byte>, tbsRest: seq<Byte>)
    requires ValidityEnd(rest).Ok?
    ensures notBefore.Valid() && notAfter.Valid()
    ensures var validity := Element(shape.0, shape.1, notBefore.Encode() + (notAfter.Encode() + validityRest));
            validity.Valid() && rest == validity.Encode() + tbsRest
    ensures Asn1Time(notAfter.tag, notAfter.content) == Some(ValidityEnd(rest).value)
  {
    var validity := Take(rest).value.1;
    var after := Take(validity).value.2;
    TakeSplitsItsInput(rest);
    TakeSplitsItsInput(validity);
    TakeSplitsItsInput(after);
    shape := Shape(rest);
    notBefore, notAfter := Head(validity), Head(after);
    validityRest, tbsRest := Take(after).value.2, Take(rest).value.2;
  }

  ghost function Shape(data: seq<Byte>): (Byte, nat)
    requires Take(data).Some?
  {
    (Head(data).tag, Head(data).lengthBytes)
  }

  /** And nothing else is read: bytes an end is found in are such a certificate. */
  lemma NotAfterReadsOnlyCertificates(der: seq<Byte>) returns (c: Cert)
    requires NotAfterOf(der).Ok?
    ensures c.Valid() && c.Encode() == der
    ensures Asn1Time(c.notAfter.tag, c.notAfter.content) == Some(NotAfterOf(der).value)
  {
    var (_, cert, after) := Take(der).value;
    var (_, tbs, certRest) := Take(cert).value;
    TakeSplitsItsInput(der);
    TakeSplitsItsInput(cert);
    var fields := PastVersion(tbs).value;
    var version := OnlyVersion(tbs);
    var serial, signature, issuer := OnlyFields(fields);
    var validity, notBefore, notAfter, validityRest, tbsRest := OnlyValidity(PastFields(fields, SKIPPED).value);
    c := Cert(version, serial, signature, issuer, notBefore, notAfter,
              Shape(der), Shape(cert), validity, validityRest, tbsRest, certRest, after);
    assert c.Fields() == fields;
    assert c.Tbs() == Head(cert);
    assert c.Outer() == Head(der);
    if version.None? {
      assert fields[0] == serial.tag;
    }
  }
}
