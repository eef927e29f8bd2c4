/**
 The header of an F1AP PDU in aligned PER (ITU-T X.691): a two-bit choice of outcome, the procedure
 code in an octet of its own, the criticality, a length, and the message body. Bodies are opaque
 here: their codecs are parameters.
 */
module F1ap {
  import opened Bytes
  import opened Transactions

  datatype Kind = Initiating | Successful | Unsuccessful

  datatype Pdu<+Body> = Pdu(kind: Kind, code: byte, body: Body)

  /** Body codecs: `criticality` and `encode` by message, `decode` by kind and code. */
  datatype Codec<!Body> = Codec(
    criticality: (Kind, byte) -> nat,
    encode: Body -> seq<byte>,
    decode: (Kind, byte, seq<byte>) -> Option<Body>)

  const INITIATING_CODES: set<byte> := {
    0, 1, 2, 3, 4, 5, 6, 7, 8, 10, 11, 12, 13, 15, 16, 17, 18, 19, 20, 21, 22, 23, 24, 25, 26, 27, 28, 29, 30, 31,
    32, 33, 34, 35, 36, 37, 38, 39, 40, 41, 42, 43, 44, 45, 46, 47, 48, 49, 50, 51, 52, 53, 54, 55, 56, 57, 58}

  const SUCCESSFUL_CODES: set<byte> :=
    {0, 1, 3, 4, 5, 6, 7, 8, 16, 20, 21, 26, 32, 33, 34, 35, 36, 41, 48, 49, 50, 52}

  const UNSUCCESSFUL_CODES: set<byte> :=
    {1, 3, 4, 5, 7, 8, 26, 32, 33, 34, 35, 36, 41, 48, 49, 50, 52}

  const UE_CONTEXT_SETUP: byte := 5
  const UE_CONTEXT_RELEASE: byte := 6

  /** The PDUs there are: each kind has its own procedure codes. */
  predicate Exists(kind: Kind, code: byte) {
    match kind
    case Initiating => code in INITIATING_CODES
    case Successful => code in SUCCESSFUL_CODES
    case Unsuccessful => code in UNSUCCESSFUL_CODES
  }

  function Index(kind: Kind): (i: nat)
    ensures i < 3
  {
    match kind case Initiating => 0 case Successful => 1 case Unsuccessful => 2
  }

  /** Clause 11.9 of X.691 up to sixteen thousand octets; longer bodies would need fragments. */
  function Length(n: nat): (r: Option<seq<byte>>)
    ensures r.Some? <==> n < 0x4000
    ensures r.Some? ==> 1 <= |r.value| <= 2
  {
    if n < 0x80 then Some([n])
    else if n < 0x4000 then Some([0x80 + n / 256, n % 256])
    else None
  }

  function LengthSize(first: byte): (r: Option<nat>) {
    if first < 0x80 then Some(1) else if first < 0xc0 then Some(2) else None
  }

  function Encode<Body>(c: Codec<Body>, pdu: Pdu<Body>): (r: Option<seq<byte>>) {
    var body, crit := c.encode(pdu.body), c.criticality(pdu.kind, pdu.code);
    var length := Length(|body|);
    if length.None? || crit > 2 then None
    else Some([Index(pdu.kind) * 64, pdu.code, crit * 64] + length.value + body)
  }

  function KindOf(first: byte): (r: Option<Kind>) {
    if first < 64 then Some(Initiating) else if first < 128 then Some(Successful)
    else if first < 192 then Some(Unsuccessful) else None
  }

  function Decode<Body>(c: Codec<Body>, b: seq<byte>): (r: Option<Pdu<Body>>) {
    if |b| < 4 then None else
      var kind, size := KindOf(b[0]), LengthSize(b[3]);
      if kind.None? || b[2] >= 192 || size.None? || |b| < 3 + size.value || !Exists(kind.value, b[1]) then None else
        var body := c.decode(kind.value, b[1], b[3 + size.value..]);
        if body.None? then None else Some(Pdu(kind.value, b[1], body.value))
  }

  ghost predicate BodyRoundTrips<Body>(c: Codec<Body>, pdu: Pdu<Body>) {
    c.decode(pdu.kind, pdu.code, c.encode(pdu.body)) == Some(pdu.body)
  }

  /** Header and body come back, given a body codec that round-trips. */
  lemma PduRoundTrip<Body>(c: Codec<Body>, pdu: Pdu<Body>)
    requires Exists(pdu.kind, pdu.code) && Encode(c, pdu).Some? && BodyRoundTrips(c, pdu)
    ensures Decode(c, Encode(c, pdu).value) == Some(pdu)
  {
    var b, body := Encode(c, pdu).value, c.encode(pdu.body);
    var length := Length(|body|).value;
    assert b[0] == Index(pdu.kind) * 64 && b[1] == pdu.code && b[3] == length[0];
    assert LengthSize(b[3]) == Some(|length|);
    assert b[3 + |length|..] == body;
  }

  /** The header of an encoded PDU: choice, procedure code, criticality and length, octet by octet. */
  lemma HeaderOctets<Body>(c: Codec<Body>, pdu: Pdu<Body>)
    requires Encode(c, pdu).Some?
    ensures var b, n, crit := Encode(c, pdu).value, |c.encode(pdu.body)|, c.criticality(pdu.kind, pdu.code);
      && |b| >= 4 && crit <= 2 && n < 16384
      && b[0] == (match pdu.kind case Initiating => 0x00 case Successful => 0x40 case Unsuccessful => 0x80)
      && b[1] == pdu.code && b[2] == crit * 0x40
      && (n < 128 ==> b[3] == n && b[4..] == c.encode(pdu.body))
      && (n >= 128 ==> |b| >= 5 && 0x80 <= b[3] < 0xc0 && (b[3] - 0x80) as int * 256 + b[4] == n && b[5..] == c.encode(pdu.body))
  {
    var b, body := Encode(c, pdu).value, c.encode(pdu.body);
    var length := Length(|body|).value;
    assert b[3..] == length + body;
    assert b[3 + |length|..] == body;
  }

  // ---- Responses ----

  datatype Response<+Body> = Ok(body: Body) | Refused(body: Body) | Other

  /** What a request of procedure p makes of the message routed to it. */
  function DecodeResponse<Body>(c: Codec<Body>, p: byte, b: seq<byte>): (r: Response<Body>) {
    match Decode(c, b)
    case Some(Pdu(Successful, code, body)) => if code == p then Ok(body) else Other
    case Some(Pdu(Unsuccessful, code, body)) => if code == p then Refused(body) else Other
    case _ => Other
  }

  /**
   The test on two octets is exact: of all PDUs, it holds of the outcomes of procedure p and of
   nothing else, and the request then decodes exactly the outcome that was sent.
   */
  lemma ResponseClassificationExact<Body>(c: Codec<Body>, p: byte, pdu: Pdu<Body>)
    requires Exists(pdu.kind, pdu.code) && Encode(c, pdu).Some?
    ensures |Encode(c, pdu).value| >= 4
    ensures Matches(p, Encode(c, pdu).value) <==> !pdu.kind.Initiating? && pdu.code == p
    ensures Matches(p, Encode(c, pdu).value) && BodyRoundTrips(c, pdu) ==>
      DecodeResponse(c, p, Encode(c, pdu).value) == if pdu.kind.Successful? then Ok(pdu.body) else Refused(pdu.body)
  {
    var b := Encode(c, pdu).value;
    assert b[0] == Index(pdu.kind) * 64 && b[1] == pdu.code;
    if BodyRoundTrips(c, pdu) {
      PduRoundTrip(c, pdu);
    }
  }

  /** The two procedures a UE task waits for have successful outcomes, and these are accepted. */
  lemma ContextResponsesAccepted<Body>(c: Codec<Body>, code: byte, body: Body)
    requires code == 5 || code == 6
    requires Encode(c, Pdu(Successful, code, body)).Some? && BodyRoundTrips(c, Pdu(Successful, code, body))
    ensures DecodeResponse(c, code, Encode(c, Pdu(Successful, code, body)).value) == Ok(body)
  {
    PduRoundTrip(c, Pdu(Successful, code, body));
  }

  /** A context release has no unsuccessful outcome, so its response is never a refusal. */
  lemma ReleaseIsNeverRefused<Body>(c: Codec<Body>, b: seq<byte>)
    ensures !DecodeResponse(c, UE_CONTEXT_RELEASE, b).Refused?
    ensures Exists(Unsuccessful, UE_CONTEXT_SETUP) && !Exists(Unsuccessful, UE_CONTEXT_RELEASE)
  {
  }

  /** In the vector: a request from the DU is never taken for a response, an outcome reaches a request of its code. */
  lemma RoutedByKind<Body>(c: Codec<Body>, pending: seq<Pending>, pdu: Pdu<Body>)
    requires Exists(pdu.kind, pdu.code) && Encode(c, pdu).Some?
    ensures |Encode(c, pdu).value| >= 4
    ensures var r := FirstMatch(pending, Encode(c, pdu).value);
      && (r.Some? <==> !pdu.kind.Initiating? && exists e :: e in pending && e.code == pdu.code)
      && (r.Some? ==> pending[r.value].code == pdu.code)
  {
    ResponseClassificationExact(c, pdu.code, pdu);
    forall i | 0 <= i < |pending|
      ensures Matches(pending[i].code, Encode(c, pdu).value) <==> !pdu.kind.Initiating? && pending[i].code == pdu.code
    {
      ResponseClassificationExact(c, pending[i].code, pdu);
    }
  }
}
