/** The 128-NIA2 integrity algorithm down to its CMAC input (annex B.2.3 of TS 33.401). */
module Nia2 {
  import opened Bytes

  type Key = seq<byte>

  /** AES-CMAC truncated to 32 bits, left uninterpreted. */
  type Cmac = (Key, seq<byte>) -> Quad

  function Input(count: nat, bearer: nat, direction: nat, message: seq<byte>): (s: seq<byte>)
    requires bearer < 32 && direction < 2
    ensures |s| == 8 + |message|
  {
    Be32(count) + [bearer * 8 + direction * 4, 0, 0, 0] + message
  }

  /** COUNT, BEARER, DIRECTION and message can all be read back from the input. */
  lemma InputInjective(c1: nat, b1: nat, d1: nat, m1: seq<byte>, c2: nat, b2: nat, d2: nat, m2: seq<byte>)
    requires b1 < 32 && d1 < 2 && b2 < 32 && d2 < 2 && c1 < TWO_32 && c2 < TWO_32
    ensures Input(c1, b1, d1, m1) == Input(c2, b2, d2, m2) <==> c1 == c2 && b1 == b2 && d1 == d2 && m1 == m2
  {
    var x, y := Input(c1, b1, d1, m1), Input(c2, b2, d2, m2);
    if x == y {
      assert x[..4] == Be32(c1) && y[..4] == Be32(c2);
      Be32Exact(c1, c2);
      assert x[4] == b1 * 8 + d1 * 4 && y[4] == b2 * 8 + d2 * 4;
      assert x[8..] == m1 && y[8..] == m2;
    }
  }

  // ---- The receiving side, as a reference ----

  /** The input of the CMAC, octet by octet; the fifth holds BEARER and DIRECTION. */
  function Spelled(count: nat, fifth: byte, message: seq<byte>): (s: seq<byte>) {
    [count / 0x100_0000 % 256, count / 0x1_0000 % 256, count / 256 % 256, count % 256, fifth, 0, 0, 0] + message
  }

  datatype Fields = Fields(count: nat, bearer: nat, direction: nat, message: seq<byte>)

  /** Read bit by bit: 32 of COUNT, five of BEARER, one of DIRECTION, 26 zeroes, then the message. */
  function ReadInput(s: seq<byte>): (r: Option<Fields>) {
    if |s| < 8 || s[4] % 4 != 0 || s[5] != 0 || s[6] != 0 || s[7] != 0 then None
    else Some(Fields(((s[0] as int * 256 + s[1]) * 256 + s[2]) * 256 + s[3], s[4] / 8, s[4] / 4 % 2, s[8..]))
  }

  /** All four arguments can be read back. */
  lemma InputReadsBack(count: nat, bearer: nat, direction: nat, message: seq<byte>)
    requires bearer < 32 && direction < 2 && count < TWO_32
    ensures ReadInput(Input(count, bearer, direction, message)) == Some(Fields(count, bearer, direction, message))
  {
    var s := Input(count, bearer, direction, message);
    Be32Value(count);
    assert s[..4] == Be32(count) && s[0] == Be32(count)[0] && s[1] == Be32(count)[1];
    assert s[2] == Be32(count)[2] && s[3] == Be32(count)[3];
    assert s[4] == bearer * 8 + direction * 4 && s[8..] == message;
    DivModUnique(s[4], 8, bearer, direction * 4);
    DivModUnique(s[4], 4, bearer * 2 + direction, 0);
    DivModUnique(bearer * 2 + direction, 2, bearer, direction);
  }

  function MacBytes(m: Quad): (s: seq<byte>) {
    [m.a, m.b, m.c, m.d]
  }
}

/** PDCP for signalling bearers: sequence numbers, and integrity protection once a key is set. */
module Pdcp {
  import opened Bytes
  import opened Nia2

  const DIRECTION_DL: nat := 1
  const SRB1_BEARER: nat := 0

  /** The inner packet of a PDCP PDU, without its two-octet header and four-octet MAC. */
  function ViewInner(pdu: seq<byte>): (r: Option<seq<byte>>) {
    if |pdu| >= 6 then Some(pdu[2..|pdu| - 4]) else None
  }

  function Body(count: nat, inner: seq<byte>): (s: seq<byte>)
    ensures |s| == 2 + |inner|
  {
    [count / 256 % 16, count % 256] + inner
  }

  function MacInput(count: nat, inner: seq<byte>): (s: seq<byte>) {
    Input(count, SRB1_BEARER, DIRECTION_DL, Body(count, inner))
  }

  /** On SRB1 downlink, bearer identity 0 and direction 1, the CMAC is fed with COUNT, 04 00 00 00 and the PDU. */
  lemma MacInputSpelled(count: nat, inner: seq<byte>)
    ensures MacInput(count, inner) == Spelled(count, 0x04, Body(count, inner))
    ensures count < TWO_32 ==> ReadInput(MacInput(count, inner)) == Some(Fields(count, 0, 1, Body(count, inner)))
  {
    if count < TWO_32 {
      InputReadsBack(count, SRB1_BEARER, DIRECTION_DL, Body(count, inner));
    }
  }

  /** The SRB1 PDU of a given COUNT. */
  function Srb1Pdu(cmac: Cmac, key: Option<Key>, count: nat, inner: seq<byte>): (pdu: seq<byte>) {
    Body(count, inner) + if key.Some? then MacBytes(cmac(key.value, MacInput(count, inner))) else [0, 0, 0, 0]
  }

  lemma SnOctets(n: nat)
    ensures n % TWO_12 / 256 == n / 256 % 16 && n % TWO_12 % 256 == n % 256
  {
    TwelveBits(n);
    DivModUnique(n % TWO_12, 256, n / 256 % 16, n % 256);
  }

  class PdcpTx {
    var txNext: nat
    var key: Option<Key>

    ghost predicate Valid()
      reads this
    {
      txNext < TWO_32
    }

    ghost function Value(): Tx
      reads this
    {
      Tx(txNext, key)
    }

    constructor ()
      ensures Valid() && Value() == Tx(0, None)
    {
      txNext, key := 0, None;
    }

    method EnableSecurity(ik: Key)
      requires Valid()
      modifies this
      ensures Valid() && Value() == OnEvent(old(Value()), Secure(ik))
    {
      key := Some(ik);
    }

    /** Encapsulate for SRB0, unnumbered and without a MAC, or for SRB1; other bearers are asserted away. */
    method Encode(cmac: Cmac, srb: nat, inner: seq<byte>) returns (pdu: seq<byte>)
      requires Valid() && srb <= 1
      modifies this
      ensures Valid() && Value() == OnEvent(old(Value()), Send(srb, inner))
      ensures ViewInner(pdu) == Some(inner)
      ensures srb == 0 ==> pdu == [0, 0] + inner + [0, 0, 0, 0]
      ensures srb == 1 ==> [pdu] == Output(cmac, old(Value()), Send(1, inner))
    {
      var sn := if srb == 0 then 0 else txNext % TWO_12;
      SnOctets(txNext);
      pdu := [sn / 256, sn % 256] + inner;
      var mac := Quad(0, 0, 0, 0);
      if srb > 0 {
        if key.Some? {
          mac := cmac(key.value, Input(txNext, SRB1_BEARER, DIRECTION_DL, pdu));
        }
        txNext := (txNext + 1) % TWO_32;
      }
      pdu := pdu + MacBytes(mac);
      assert pdu[2..|pdu| - 4] == inner;
    }

    /** RRC messages on SRB0 travel without PDCP, those on SRB1 within it. */
    method MaybeEncapsulate(cmac: Cmac, srb: nat, rrc: seq<byte>) returns (container: seq<byte>)
      requires Valid() && srb <= 1
      modifies this
      ensures Valid() && Value() == OnEvent(old(Value()), Send(srb, rrc))
      ensures [container] == Output(cmac, old(Value()), Send(srb, rrc))
    {
      if srb == 0 {
        container := rrc;
      } else {
        container := Encode(cmac, srb, rrc);
      }
    }
  }

  // ---- Whole runs of one UE ----

  datatype Event = Send(srb: nat, inner: seq<byte>) | Secure(ik: Key)

  /** The transmitter as a value. */
  datatype Tx = Tx(next: nat, key: Option<Key>)

  function OnEvent(tx: Tx, e: Event): (r: Tx) {
    match e
    case Secure(ik) => tx.(key := Some(ik))
    case Send(srb, _) => if srb == 0 then tx else tx.(next := (tx.next + 1) % TWO_32)
  }

  /** The message container an event sends, if it sends one. */
  function Output(cmac: Cmac, tx: Tx, e: Event): (r: seq<seq<byte>>) {
    match e
    case Secure(_) => []
    case Send(srb, inner) => if srb == 0 then [inner] else [Srb1Pdu(cmac, tx.key, tx.next, inner)]
  }

  function After(es: seq<Event>): (tx: Tx) {
    if es == [] then Tx(0, None) else OnEvent(After(es[..|es| - 1]), es[|es| - 1])
  }

  /** Counted on the events alone: SRB1 sends so far, and the key last set. */
  ghost function Srb1Sends(es: seq<Event>): nat {
    if es == [] then 0
    else Srb1Sends(es[..|es| - 1]) + if es[|es| - 1].Send? && es[|es| - 1].srb != 0 then 1 else 0
  }

  ghost function LastKey(es: seq<Event>): Option<Key> {
    if es == [] then None
    else if es[|es| - 1].Secure? then Some(es[|es| - 1].ik) else LastKey(es[..|es| - 1])
  }

  lemma {:induction false} TxCounts(es: seq<Event>)
    ensures After(es) == Tx(Srb1Sends(es) % TWO_32, LastKey(es))
  {
    if es != [] {
      TxCounts(es[..|es| - 1]);
      WrapStep(Srb1Sends(es[..|es| - 1]), TWO_32);
    }
  }

  function SnOf(pdu: seq<byte>): (n: nat)
    requires |pdu| >= 2
  {
    pdu[0] as int * 256 + pdu[1]
  }

  function MacOf(pdu: seq<byte>): (q: Quad)
    requires |pdu| >= 4
  {
    QuadAt(pdu, |pdu| - 4)
  }

  /**
   In every run, however SRB0 and SRB1 sends and security activation interleave, the n-th SRB1 PDU
   (n from zero) carries sequence number n modulo 4096 and the inner message, and its MAC is zero
   before the key is set and from then on the CMAC under COUNT n.
   */
  lemma NthPduExact(cmac: Cmac, es: seq<Event>, i: nat)
    requires i < |es| && es[i].Send? && es[i].srb != 0
    ensures var n, key, inner := Srb1Sends(es[..i]), LastKey(es[..i]), es[i].inner;
      var out := Output(cmac, After(es[..i]), es[i]);
      && |out| == 1 && |out[0]| == |inner| + 6
      && SnOf(out[0]) == n % TWO_12 && ViewInner(out[0]) == Some(inner)
      && MacOf(out[0]) == (if key.None? then Quad(0, 0, 0, 0)
                           else cmac(key.value, Spelled(n % TWO_32, 0x04, out[0][..|out[0]| - 4])))
  {
    TxCounts(es[..i]);
    PduExact(cmac, LastKey(es[..i]), Srb1Sends(es[..i]), es[i].inner);
  }

  /** The PDU of count n: its number, its message and its MAC. */
  lemma PduExact(cmac: Cmac, key: Option<Key>, n: nat, inner: seq<byte>)
    ensures var pdu := Srb1Pdu(cmac, key, n % TWO_32, inner);
      && |pdu| == |inner| + 6 && SnOf(pdu) == n % TWO_12 && ViewInner(pdu) == Some(inner)
      && MacOf(pdu) == (if key.None? then Quad(0, 0, 0, 0)
                        else cmac(key.value, Spelled(n % TWO_32, 0x04, pdu[..|pdu| - 4])))
  {
    PduParts(cmac, key, n % TWO_32, inner);
    MacInputSpelled(n % TWO_32, inner);
    TwelveBits(n % TWO_32);
    Low12(n);
  }

  lemma PduParts(cmac: Cmac, key: Option<Key>, count: nat, inner: seq<byte>)
    ensures var pdu := Srb1Pdu(cmac, key, count, inner);
      && |pdu| == |inner| + 6 && pdu[0] == count / 256 % 16 && pdu[1] == count % 256
      && ViewInner(pdu) == Some(inner) && pdu[..|pdu| - 4] == Body(count, inner)
      && MacOf(pdu) == (if key.None? then Quad(0, 0, 0, 0) else cmac(key.value, MacInput(count, inner)))
  {
    var pdu := Srb1Pdu(cmac, key, count, inner);
    assert pdu[2..|pdu| - 4] == inner;
  }

  /** Two SRB1 PDUs of a run have the same CMAC input iff they are 2^32 apart and say the same. */
  lemma MacInputsExact(es: seq<Event>, i: nat, j: nat)
    requires i < j < |es| && es[i].Send? && es[i].srb != 0 && es[j].Send? && es[j].srb != 0
    ensures Srb1Sends(es[..i]) < Srb1Sends(es[..j])
    ensures MacInput(After(es[..i]).next, es[i].inner) == MacInput(After(es[..j]).next, es[j].inner)
       <==> Srb1Sends(es[..i]) % TWO_32 == Srb1Sends(es[..j]) % TWO_32 && es[i].inner == es[j].inner
  {
    SendsGrow(es, i, j);
    TxCounts(es[..i]);
    TxCounts(es[..j]);
    var c1, c2 := Srb1Sends(es[..i]) % TWO_32, Srb1Sends(es[..j]) % TWO_32;
    var b1, b2 := Body(c1, es[i].inner), Body(c2, es[j].inner);
    InputInjective(c1, SRB1_BEARER, DIRECTION_DL, b1, c2, SRB1_BEARER, DIRECTION_DL, b2);
    assert b1[2..] == es[i].inner && b2[2..] == es[j].inner;
  }

  lemma {:induction false} SendsGrow(es: seq<Event>, i: nat, j: nat)
    requires i < j <= |es| && es[i].Send? && es[i].srb != 0
    ensures Srb1Sends(es[..i]) < Srb1Sends(es[..j])
    decreases j
  {
    assert es[..j][..j - 1] == es[..j - 1] && es[..j][j - 1] == es[j - 1];
    if i < j - 1 {
      SendsGrow(es, i, j - 1);
    }
  }

  /** So below 2^32 PDUs no CMAC input is ever used twice. */
  lemma MacInputsFresh(es: seq<Event>, i: nat, j: nat)
    requires i < j < |es| && es[i].Send? && es[i].srb != 0 && es[j].Send? && es[j].srb != 0
    requires Srb1Sends(es[..j]) < TWO_32
    ensures MacInput(After(es[..i]).next, es[i].inner) != MacInput(After(es[..j]).next, es[j].inner)
  {
    MacInputsExact(es, i, j);
  }
}

/** NAS security: integrity protection of downlink NAS messages under the 24-bit NAS COUNT. */
module NasSecurity {
  import opened Bytes
  import opened Nia2

  const FIVEGMM: byte := 0x7e
  const PROTECTED_CIPHERED: byte := 2
  const PROTECTED_NEW_CONTEXT: byte := 3
  const NAS_BEARER: nat := 1
  const DIRECTION_DL: nat := 1

  /** The header type: a new context is announced at COUNT zero. */
  function HeaderType(count: nat): (h: byte) {
    if count == 0 then PROTECTED_NEW_CONTEXT else PROTECTED_CIPHERED
  }

  /** What the MAC covers: the sequence number octet and the plain message. */
  function Covered(count: nat, plain: seq<byte>): (s: seq<byte>) {
    [count % 256] + plain
  }

  /** What the MAC of a message encoded under a COUNT is computed over. */
  function MacInput(count: nat, plain: seq<byte>): (s: seq<byte>) {
    Input(count, NAS_BEARER, DIRECTION_DL, Covered(count, plain))
  }

  /** The CMAC is fed with COUNT, 0c 00 00 00, the sequence octet and the message. */
  lemma MacInputSpelled(count: nat, plain: seq<byte>)
    ensures MacInput(count, plain) == Spelled(count, 0x0c, [count % 256] + plain)
    ensures count < TWO_32 ==> ReadInput(MacInput(count, plain)) == Some(Fields(count, 1, 1, [count % 256] + plain))
  {
    if count < TWO_32 {
      InputReadsBack(count, NAS_BEARER, DIRECTION_DL, Covered(count, plain));
    }
  }

  function Protect(cmac: Cmac, ik: Key, count: nat, plain: seq<byte>): (s: seq<byte>)
    ensures |s| == 7 + |plain|
  {
    [FIVEGMM, HeaderType(count)] + MacBytes(cmac(ik, MacInput(count, plain)))
    + Covered(count, plain)
  }

  /**
   A receiver that expects the given COUNT: its checks on a protected message (sections 9.1.1 and
   9.3 of TS 24.501), and the plain message. Over 3GPP access BEARER is 1 and DIRECTION is 1.
   */
  function Unprotect(cmac: Cmac, ik: Key, count: nat, s: seq<byte>): (r: Option<seq<byte>>) {
    if |s| >= 7 && s[0] == 0x7e && s[1] == (if count == 0 then 3 else 2) && s[6] == count % 256
       && QuadAt(s, 2) == cmac(ik, Spelled(count, 0x0c, s[6..]))
    then Some(s[7..]) else None
  }

  lemma UnprotectProtect(cmac: Cmac, ik: Key, count: nat, plain: seq<byte>)
    ensures Unprotect(cmac, ik, count, Protect(cmac, ik, count, plain)) == Some(plain)
  {
    var s := Protect(cmac, ik, count, plain);
    assert s[6..] == Covered(count, plain) && s[7..] == plain;
    assert QuadAt(s, 2) == cmac(ik, MacInput(count, plain));
    MacInputSpelled(count, plain);
  }

  class SecurityContext {
    const ik: Key
    var dlCount: nat

    constructor (ik: Key)
      ensures this.ik == ik && dlCount == 0
    {
      this.ik := ik;
      dlCount := 0;
    }

    /**
     Protect a message whose plain encoding is given (none if the codec refuses it). The codec
     leaves the MAC octets zero; they are patched in afterwards.
     */
    method EncodeWithIntegrity(cmac: Cmac, plain: Option<seq<byte>>) returns (r: Option<seq<byte>>)
      modifies this
      ensures r.Some? <==> plain.Some?
      ensures r.Some? ==> r.value == Protect(cmac, ik, old(dlCount), plain.value)
      ensures dlCount == if r.Some? then (old(dlCount) + 1) % TWO_24 else old(dlCount)
    {
      var headerType := if dlCount == 0 then PROTECTED_NEW_CONTEXT else PROTECTED_CIPHERED;
      if plain.None? {
        return None;
      }
      var s: seq<byte> := [FIVEGMM, headerType, 0, 0, 0, 0, dlCount % 256] + plain.value;
      assert s[6..] == Covered(dlCount, plain.value);
      var mac := cmac(ik, Input(dlCount, NAS_BEARER, DIRECTION_DL, s[6..]));
      s := s[2 := mac.a][3 := mac.b][4 := mac.c][5 := mac.d];
      assert s == Protect(cmac, ik, dlCount, plain.value);
      dlCount := (dlCount + 1) % TWO_24;
      r := Some(s);
    }
  }

  class NasContext {
    var security: SecurityContext?

    ghost function Value(): Ctx
      reads this, security
    {
      if security == null then Plain else Secured(security.ik, security.dlCount)
    }

    constructor ()
      ensures Value() == Plain
    {
      security := null;
    }

    method EnableSecurity(knasint: Key)
      modifies this
      ensures Value() == OnEvent(old(Value()), Enable(knasint)) && fresh(security)
    {
      security := new SecurityContext(knasint);
    }

    method Encode(cmac: Cmac, plain: Option<seq<byte>>) returns (r: Option<seq<byte>>)
      modifies this, security
      ensures security == old(security)
      ensures Value() == OnEvent(old(Value()), Message(plain))
      ensures r == Output(cmac, old(Value()), plain)
    {
      if security != null {
        r := security.EncodeWithIntegrity(cmac, plain);
      } else {
        r := plain;
      }
    }
  }

  // ---- Whole runs of one UE ----

  datatype Ctx = Plain | Secured(ik: Key, count: nat)

  datatype Event = Enable(ik: Key) | Message(plain: Option<seq<byte>>)

  function OnEvent(c: Ctx, e: Event): (r: Ctx) {
    match e
    case Enable(ik) => Secured(ik, 0)
    case Message(plain) => if c.Secured? && plain.Some? then c.(count := (c.count + 1) % TWO_24) else c
  }

  function Output(cmac: Cmac, c: Ctx, plain: Option<seq<byte>>): (r: Option<seq<byte>>) {
    if plain.None? || c.Plain? then plain else Some(Protect(cmac, c.ik, c.count, plain.value))
  }

  function After(es: seq<Event>): (c: Ctx) {
    if es == [] then Plain else OnEvent(After(es[..|es| - 1]), es[|es| - 1])
  }

  /** Counted on the events alone: the key last enabled, and messages encoded since. */
  ghost function LastKey(es: seq<Event>): Option<Key> {
    if es == [] then None
    else if es[|es| - 1].Enable? then Some(es[|es| - 1].ik) else LastKey(es[..|es| - 1])
  }

  ghost function Encoded(es: seq<Event>): nat {
    if es == [] || es[|es| - 1].Enable? then 0
    else Encoded(es[..|es| - 1]) + if es[|es| - 1].plain.Some? && LastKey(es[..|es| - 1]).Some? then 1 else 0
  }

  lemma {:induction false} ContextCounts(es: seq<Event>)
    ensures After(es) == match LastKey(es) case None => Plain case Some(ik) => Secured(ik, Encoded(es) % TWO_24)
  {
    if es != [] {
      ContextCounts(es[..|es| - 1]);
      WrapStep(Encoded(es[..|es| - 1]), TWO_24);
    }
  }

  /**
   In every run, each message encoded after security is enabled is protected: the n-th since then
   (n from zero) is accepted by a receiver expecting COUNT n modulo 2^24, which recomputes the MAC
   over the octets from the sixth on, and yields the plain message; its sequence octet is n modulo
   256. Before that, messages go out plain.
   */
  lemma NthMessageProtected(cmac: Cmac, es: seq<Event>, i: nat)
    requires i < |es| && es[i].Message? && es[i].plain.Some?
    ensures var n, key, plain := Encoded(es[..i]), LastKey(es[..i]), es[i].plain.value;
      var out := Output(cmac, After(es[..i]), es[i].plain);
      && out.Some?
      && (key.None? ==> out.value == plain)
      && (key.Some? ==> |out.value| == |plain| + 7 && out.value[6] == n % 256
                        && Unprotect(cmac, key.value, n % TWO_24, out.value) == Some(plain))
  {
    ContextCounts(es[..i]);
    var n, key := Encoded(es[..i]), LastKey(es[..i]);
    if key.Some? {
      UnprotectProtect(cmac, key.value, n % TWO_24, es[i].plain.value);
      Low8(n);
    }
  }

  /** The new-context header marks the first protected message, and again each 2^24-th after it. */
  lemma NewContextExactly(cmac: Cmac, es: seq<Event>, i: nat)
    requires i < |es| && es[i].Message? && es[i].plain.Some? && LastKey(es[..i]).Some?
    ensures var out := Output(cmac, After(es[..i]), es[i].plain);
      && out.Some? && |out.value| >= 2
      && out.value[1] == (if Encoded(es[..i]) % TWO_24 == 0 then 3 else 2)
      && (Encoded(es[..i]) < TWO_24 ==> (out.value[1] == 3 <==> Encoded(es[..i]) == 0))
  {
    ContextCounts(es[..i]);
  }

  /** Two protected messages of a run share a CMAC input iff they share COUNT and content. */
  lemma CmacInputsExact(es: seq<Event>, i: nat, j: nat)
    requires i < j < |es| && es[i].Message? && es[i].plain.Some? && es[j].Message? && es[j].plain.Some?
    requires LastKey(es[..i]).Some? && LastKey(es[..j]).Some?
    ensures After(es[..i]).Secured? && After(es[..j]).Secured?
    ensures MacInput(After(es[..i]).count, es[i].plain.value) == MacInput(After(es[..j]).count, es[j].plain.value)
       <==> Encoded(es[..i]) % TWO_24 == Encoded(es[..j]) % TWO_24 && es[i].plain == es[j].plain
  {
    ContextCounts(es[..i]);
    ContextCounts(es[..j]);
    var x, y, p, q := Encoded(es[..i]) % TWO_24, Encoded(es[..j]) % TWO_24, es[i].plain.value, es[j].plain.value;
    InputInjective(x, NAS_BEARER, DIRECTION_DL, Covered(x, p), y, NAS_BEARER, DIRECTION_DL, Covered(y, q));
    assert Covered(x, p)[1..] == p && Covered(y, q)[1..] == q;
  }

  /** So under one activation no CMAC input is used twice within the first 2^24 messages. */
  lemma CmacInputsFresh(es: seq<Event>, i: nat, j: nat)
    requires i < j < |es| && es[i].Message? && es[i].plain.Some? && es[j].Message? && es[j].plain.Some?
    requires LastKey(es[..i]).Some? && forall k | i < k < j :: es[k].Message?
    requires Encoded(es[..j]) < TWO_24
    ensures LastKey(es[..j]) == LastKey(es[..i])
    ensures After(es[..i]).Secured? && After(es[..j]).Secured?
    ensures MacInput(After(es[..i]).count, es[i].plain.value) != MacInput(After(es[..j]).count, es[j].plain.value)
  {
    EncodedGrows(es, i, j);
    CmacInputsExact(es, i, j);
  }

  lemma {:induction false} EncodedGrows(es: seq<Event>, i: nat, j: nat)
    requires i < j <= |es| && es[i].Message? && es[i].plain.Some? && LastKey(es[..i]).Some?
    requires forall k | i < k < j :: es[k].Message?
    ensures LastKey(es[..j]) == LastKey(es[..i]) && Encoded(es[..i]) < Encoded(es[..j])
    decreases j
  {
    var init := es[..j - 1];
    assert es[..j][..j - 1] == init && es[..j][j - 1] == es[j - 1];
    if i < j - 1 {
      EncodedGrows(es, i, j - 1);
    }
  }
}
