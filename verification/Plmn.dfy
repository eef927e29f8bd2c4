/**
 The nibble codec of PLMN identities and IMSIs: the configured MCC and MNC strings packed into
 three octets, and the mobile identity of a registration request read back into an IMSI string.
 Nibbles are stored low half first throughout; with a three-digit MNC the digits keep their
 natural order.
 */
module Plmn {
  import opened Bytes

  const FILLER: nat := 15

  type Nibble = n: nat | n < 16

  predicate IsDigit(c: char) {
    '0' <= c <= '9'
  }

  predicate AllDigits(s: string) {
    forall i | 0 <= i < |s| :: IsDigit(s[i])
  }

  /** The digit values of a string, as `char::to_digit(10)` gives them. */
  function Values(s: string): (v: seq<Nibble>)
    requires AllDigits(s)
    ensures |v| == |s| && forall i | 0 <= i < |v| :: v[i] < 10
  {
    seq(|s|, i requires 0 <= i < |s| => (s[i] as int - '0' as int) as Nibble)
  }

  /** The nibbles of a string of octets, low half first. */
  function Nibbles(b: seq<byte>): (ns: seq<Nibble>)
    ensures |ns| == 2 * |b|
  {
    if b == [] then [] else Nibbles(b[..|b| - 1]) + [b[|b| - 1] % 16, b[|b| - 1] / 16]
  }

  lemma NibblesTake(b: seq<byte>, i: nat)
    requires i < |b|
    ensures Nibbles(b[..i + 1]) == Nibbles(b[..i]) + [b[i] % 16, b[i] / 16]
  {
    assert b[..i + 1] == b[..i] + [b[i]];
    NibblesSnoc(b[..i], b[i]);
  }

  function PackOne(low: Nibble, high: Nibble): (x: byte)
    ensures x % 16 == low && x / 16 == high
  {
    (high as int) * 16 + low
  }

  lemma NibblesSnoc(b: seq<byte>, x: byte)
    ensures Nibbles(b + [x]) == Nibbles(b) + [x % 16, x / 16]
  {
    assert (b + [x])[..|b|] == b;
  }

  lemma TwoMore<T>(s: seq<T>, k: nat)
    requires k + 2 <= |s|
    ensures s[..k + 2] == s[..k] + [s[k], s[k + 1]]
  {
  }

  lemma PackLast(init: seq<byte>, ns: seq<Nibble>)
    requires |ns| >= 2 && Nibbles(init) == ns[..|ns| - 2]
    ensures Nibbles(init + [PackOne(ns[|ns| - 2], ns[|ns| - 1])]) == ns
  {
    var k := |ns| - 2;
    NibblesSnoc(init, PackOne(ns[k], ns[k + 1]));
    TwoMore(ns, k);
    assert ns[..k + 2] == ns;
  }

  /** The octets holding an even number of nibbles, low half first. */
  function Pack(ns: seq<Nibble>): (b: seq<byte>)
    requires |ns| % 2 == 0
    ensures |b| == |ns| / 2 && Nibbles(b) == ns
  {
    if ns == [] then [] else
      var init := Pack(ns[..|ns| - 2]);
      PackLast(init, ns);
      init + [PackOne(ns[|ns| - 2], ns[|ns| - 1])]
  }

  /** A nibble written in decimal: two characters from ten upwards. */
  function Decimal(n: Nibble): (s: string)
    ensures |s| == if n < 10 then 1 else 2
  {
    if n < 10 then ['0' + n as char] else ['1', '0' + (n - 10) as char]
  }

  function Render(ns: seq<Nibble>): (s: string) {
    if ns == [] then "" else Render(ns[..|ns| - 1]) + Decimal(ns[|ns| - 1])
  }

  lemma {:induction false} RenderConcat(a: seq<Nibble>, b: seq<Nibble>)
    ensures Render(a + b) == Render(a) + Render(b)
  {
    if b == [] {
      assert a + b == a;
    } else {
      assert (a + b)[..|a + b| - 1] == a + b[..|b| - 1];
      RenderConcat(a, b[..|b| - 1]);
    }
  }

  lemma {:induction false} RenderValues(s: string)
    requires AllDigits(s)
    ensures Render(Values(s)) == s
  {
    if s != "" {
      var init := s[..|s| - 1];
      assert Values(s)[..|s| - 1] == Values(init);
      RenderValues(init);
      assert s == init + [s[|s| - 1]];
    }
  }

  ghost predicate AllDecimal(ns: seq<Nibble>) {
    forall i | 0 <= i < |ns| :: ns[i] < 10
  }

  /** One character per nibble exactly when every nibble is a decimal digit. */
  lemma {:induction false} RenderLength(ns: seq<Nibble>)
    ensures |Render(ns)| >= |ns|
    ensures |Render(ns)| == |ns| <==> AllDecimal(ns)
  {
    if ns != [] {
      var init := ns[..|ns| - 1];
      RenderLength(init);
      assert AllDecimal(ns) <==> AllDecimal(init) && ns[|ns| - 1] < 10;
    }
  }

  // ---- Configuration side ----

  predicate ValidCodes(mcc: string, mnc: string) {
    |mcc| == 3 && (|mnc| == 2 || |mnc| == 3) && AllDigits(mcc) && AllDigits(mnc)
  }

  function PlmnNibbles(mcc: string, mnc: string): (ns: seq<Nibble>)
    requires ValidCodes(mcc, mnc)
    ensures |ns| == 6
  {
    Values(mcc) + (if |mnc| == 2 then [FILLER] else []) + Values(mnc)
  }

  function PlmnBytes(mcc: string, mnc: string): (b: seq<byte>)
    requires ValidCodes(mcc, mnc)
    ensures |b| == 3 && Nibbles(b) == PlmnNibbles(mcc, mnc)
  {
    Pack(PlmnNibbles(mcc, mnc))
  }

  lemma CodesInNibbles(mcc: string, mnc: string)
    requires ValidCodes(mcc, mnc)
    ensures var a := PlmnNibbles(mcc, mnc);
      (a[3] == FILLER <==> |mnc| == 2) && a[..3] == Values(mcc) && a[6 - |mnc|..] == Values(mnc)
  {
    var a := PlmnNibbles(mcc, mnc);
    assert |mnc| == 3 ==> a[3] == Values(mnc)[0];
  }

  lemma ValuesInjective(s: string, t: string)
    requires AllDigits(s) && AllDigits(t) && Values(s) == Values(t)
    ensures s == t
  {
    RenderValues(s);
    RenderValues(t);
  }

  lemma NibblesDetermineCodes(mcc1: string, mnc1: string, mcc2: string, mnc2: string)
    requires ValidCodes(mcc1, mnc1) && ValidCodes(mcc2, mnc2) && PlmnNibbles(mcc1, mnc1) == PlmnNibbles(mcc2, mnc2)
    ensures mcc1 == mcc2 && mnc1 == mnc2
  {
    CodesInNibbles(mcc1, mnc1);
    CodesInNibbles(mcc2, mnc2);
    ValuesInjective(mcc1, mcc2);
    ValuesInjective(mnc1, mnc2);
  }

  /** Distinct codes give distinct octets: nothing is lost in three octets. */
  lemma PlmnInjective(mcc1: string, mnc1: string, mcc2: string, mnc2: string)
    requires ValidCodes(mcc1, mnc1) && ValidCodes(mcc2, mnc2)
    requires PlmnBytes(mcc1, mnc1) == PlmnBytes(mcc2, mnc2)
    ensures mcc1 == mcc2 && mnc1 == mnc2
  {
    NibblesDetermineCodes(mcc1, mnc1, mcc2, mnc2);
  }

  method DigitsOf(s: string) returns (r: Option<seq<Nibble>>)
    ensures r.Some? <==> AllDigits(s)
    ensures r.Some? ==> r.value == Values(s)
  {
    var v: seq<Nibble> := [];
    for i := 0 to |s|
      invariant AllDigits(s[..i]) && v == Values(s[..i])
    {
      if !IsDigit(s[i]) {
        return None;
      }
      v := v + [s[i] as int - '0' as int];
      assert s[..i + 1] == s[..i] + [s[i]];
    }
    assert s[..|s|] == s;
    r := Some(v);
  }

  function NetworkName(mcc: string, mnc: string): (s: string) {
    "5G:mnc" + (if |mnc| == 2 then "0" else "") + mnc + ".mcc" + mcc + ".3gppnetwork.org"
  }

  lemma {:induction false} NibblesAt(b: seq<byte>, i: nat)
    requires i < |b|
    ensures Nibbles(b)[2 * i] == b[i] % 16 && Nibbles(b)[2 * i + 1] == b[i] / 16
  {
    if i < |b| - 1 {
      NibblesAt(b[..|b| - 1], i);
    }
  }

  function Digit(c: char): (n: int) {
    c as int - '0' as int
  }

  /** The three octets of a PLMN, digit by digit: low half first, and fifteen for a missing MNC digit. */
  lemma PlmnOctets(mcc: string, mnc: string, b: seq<byte>)
    requires ValidCodes(mcc, mnc) && |b| == 3 && Nibbles(b) == PlmnNibbles(mcc, mnc)
    ensures b[0] == Digit(mcc[0]) + 16 * Digit(mcc[1])
    ensures b[1] == Digit(mcc[2]) + 16 * (if |mnc| == 2 then 15 else Digit(mnc[0]))
    ensures b[2] == Digit(mnc[|mnc| - 2]) + 16 * Digit(mnc[|mnc| - 1])
  {
    NibblesAt(b, 0);
    NibblesAt(b, 1);
    NibblesAt(b, 2);
    var p := PlmnNibbles(mcc, mnc);
    assert p[0] == Values(mcc)[0] && p[1] == Values(mcc)[1] && p[2] == Values(mcc)[2];
    assert p[4] == Values(mnc)[|mnc| - 2] && p[5] == Values(mnc)[|mnc| - 1];
    assert p[3] == if |mnc| == 2 then 15 else Values(mnc)[0];
  }

  /** An MNC written with three digits. */
  function Padded(mnc: string): (s: string) {
    if |mnc| == 2 then "0" + mnc else mnc
  }

  /** Where MCC and MNC stand in the serving network name (section 28.7.2 of TS 23.003). */
  lemma NetworkNameParts(mcc: string, mnc: string)
    requires ValidCodes(mcc, mnc)
    ensures var s := NetworkName(mcc, mnc);
      && |s| == 32 && s[..6] == "5G:mnc" && s[6..9] == Padded(mnc) && s[9..13] == ".mcc" && s[13..16] == mcc
      && s[16..] == ".3gppnetwork.org"
  {
    var s, p := NetworkName(mcc, mnc), Padded(mnc);
    assert |p| == 3;
    assert s == "5G:mnc" + p + ".mcc" + mcc + ".3gppnetwork.org";
    FiveParts("5G:mnc", p, ".mcc", mcc, ".3gppnetwork.org");
  }

  lemma FiveParts(a: string, b: string, c: string, d: string, e: string)
    requires |a| == 6 && |b| == 3 && |c| == 4 && |d| == 3
    ensures var s := a + b + c + d + e;
      |s| == 16 + |e| && s[..6] == a && s[6..9] == b && s[9..13] == c && s[13..16] == d && s[16..] == e
  {
  }

  /** Two networks have one name iff their MCCs agree and their MNCs do up to a leading zero. */
  lemma NetworkNameEqualIff(mcc1: string, mnc1: string, mcc2: string, mnc2: string)
    requires ValidCodes(mcc1, mnc1) && ValidCodes(mcc2, mnc2)
    ensures NetworkName(mcc1, mnc1) == NetworkName(mcc2, mnc2) <==> mcc1 == mcc2 && Padded(mnc1) == Padded(mnc2)
  {
    NetworkNameParts(mcc1, mnc1);
    NetworkNameParts(mcc2, mnc2);
    if mcc1 == mcc2 && Padded(mnc1) == Padded(mnc2) {
      assert NetworkName(mcc1, mnc1) == "5G:mnc" + Padded(mnc1) + ".mcc" + mcc1 + ".3gppnetwork.org";
      assert NetworkName(mcc2, mnc2) == "5G:mnc" + Padded(mnc2) + ".mcc" + mcc2 + ".3gppnetwork.org";
    }
  }

  lemma PackStep(b: seq<byte>, digits: seq<Nibble>, i: nat)
    requires 2 * i + 2 <= |digits| && Nibbles(b) == digits[..2 * i]
    ensures Nibbles(b + [PackOne(digits[2 * i], digits[2 * i + 1])]) == digits[..2 * (i + 1)]
  {
    var k := 2 * i;
    NibblesSnoc(b, PackOne(digits[k], digits[k + 1]));
    TwoMore(digits, k);
  }

  method PackDigits(digits: seq<Nibble>) returns (plmn: seq<byte>)
    requires |digits| == 6
    ensures |plmn| == 3 && Nibbles(plmn) == digits
  {
    plmn := [];
    for i := 0 to 3
      invariant |plmn| == i && Nibbles(plmn) == digits[..2 * i]
    {
      PackStep(plmn, digits, i);
      plmn := plmn + [PackOne(digits[2 * i], digits[2 * i + 1])];
    }
  }

  method ConvertMccMnc(mcc: string, mnc: string) returns (r: Option<(seq<byte>, string)>)
    ensures r.Some? <==> ValidCodes(mcc, mnc)
    ensures r.Some? ==> |r.value.0| == 3 && Nibbles(r.value.0) == PlmnNibbles(mcc, mnc)
    ensures r.Some? ==>
      && r.value.0[0] == Digit(mcc[0]) + 16 * Digit(mcc[1])
      && r.value.0[1] == Digit(mcc[2]) + 16 * (if |mnc| == 2 then 15 else Digit(mnc[0]))
      && r.value.0[2] == Digit(mnc[|mnc| - 2]) + 16 * Digit(mnc[|mnc| - 1])
    ensures r.Some? ==> r.value.1 == NetworkName(mcc, mnc)
  {
    if |mcc| != 3 || !(|mnc| == 2 || |mnc| == 3) {
      return None;
    }
    var mccDigits := DigitsOf(mcc);
    if mccDigits.None? {
      return None;
    }
    var digits := mccDigits.value;
    if |mnc| == 2 {
      digits := digits + [FILLER];
    }
    var mncDigits := DigitsOf(mnc);
    if mncDigits.None? {
      return None;
    }
    digits := digits + mncDigits.value;
    var plmn := PackDigits(digits);
    PlmnOctets(mcc, mnc, plmn);
    r := Some((plmn, NetworkName(mcc, mnc)));
  }

  // ---- Registration side ----

  datatype Identity = Identity(imsi: string, plmn: seq<byte>)

  const SUPI: byte := 1

  function ImsiNibbles(plmn: seq<byte>, msin: seq<byte>): (ns: seq<Nibble>)
    requires |plmn| == 3
  {
    Unfilled(Nibbles(plmn)) + Nibbles(msin)
  }

  /** MCC and MNC nibbles without the filler of a two-digit MNC. */
  function Unfilled(p: seq<Nibble>): (ns: seq<Nibble>)
    requires |p| == 6
  {
    if p[3] == FILLER then p[..3] + p[4..] else p
  }

  /** What a mobile identity means: only a SUPI of at least twelve octets has a meaning. */
  function Parse(ie: seq<byte>): (r: Option<Identity>) {
    if |ie| < 12 || ie[0] != SUPI then None
    else Some(Identity(Render(ImsiNibbles(ie[1..4], ie[8..])), ie[1..4]))
  }

  /** Exactly the identities of another type or of fewer than twelve octets are refused. */
  lemma RefusedIff(ie: seq<byte>)
    ensures Parse(ie) == None <==> |ie| < 12 || ie[0] != 1
  {
  }

  lemma {:induction false} RenderAt(ns: seq<Nibble>, i: nat)
    requires AllDecimal(ns) && i < |ns|
    ensures |Render(ns)| == |ns| && Digit(Render(ns)[i]) == ns[i]
  {
    RenderLength(ns);
    var init := ns[..|ns| - 1];
    RenderLength(init);
    if i < |init| {
      RenderAt(init, i);
    }
  }

  /** Decimal in both halves. */
  predicate DecimalOctet(x: byte) {
    x % 16 < 10 && x / 16 < 10
  }

  lemma ImsiNibblesAt(plmn: seq<byte>, msin: seq<byte>)
    requires |plmn| == 3
    ensures var ns, h := ImsiNibbles(plmn, msin), if plmn[1] / 16 == 15 then 5 else 6;
      && |ns| == h + 2 * |msin|
      && ns[0] == plmn[0] % 16 && ns[1] == plmn[0] / 16 && ns[2] == plmn[1] % 16
      && (h == 6 ==> ns[3] == plmn[1] / 16) && ns[h - 2] == plmn[2] % 16 && ns[h - 1] == plmn[2] / 16
      && forall j | 0 <= j < |msin| :: ns[h + 2 * j] == msin[j] % 16 && ns[h + 2 * j + 1] == msin[j] / 16
  {
    var p, m := Nibbles(plmn), Nibbles(msin);
    NibblesAt(plmn, 0);
    NibblesAt(plmn, 1);
    NibblesAt(plmn, 2);
    var u := Unfilled(p);
    forall j | 0 <= j < |msin|
      ensures (u + m)[|u| + 2 * j] == msin[j] % 16 && (u + m)[|u| + 2 * j + 1] == msin[j] / 16
    {
      NibblesAt(msin, j);
    }
  }

  /**
   What an identity in decimal digits means, octet by octet: the PLMN is octets 1 to 3 and the MSIN
   is octet 8 and on, low half first, and a high half of fifteen in octet 2 is left out.
   */
  lemma IdentityDigits(ie: seq<byte>)
    requires |ie| >= 12 && ie[0] == 1 && DecimalOctet(ie[1]) && DecimalOctet(ie[3])
    requires ie[2] % 16 < 10 && (ie[2] / 16 < 10 || ie[2] / 16 == 15) && forall j | 8 <= j < |ie| :: DecimalOctet(ie[j])
    ensures Parse(ie).Some? && Parse(ie).value.plmn == ie[1..4]
    ensures var s, h := Parse(ie).value.imsi, if ie[2] / 16 == 15 then 5 else 6;
      && |s| == h + 2 * (|ie| - 8)
      && Digit(s[0]) == ie[1] % 16 && Digit(s[1]) == ie[1] / 16 && Digit(s[2]) == ie[2] % 16
      && (h == 6 ==> Digit(s[3]) == ie[2] / 16) && Digit(s[h - 2]) == ie[3] % 16 && Digit(s[h - 1]) == ie[3] / 16
      && forall j | 0 <= j < |ie| - 8 :: Digit(s[h + 2 * j]) == ie[8 + j] % 16 && Digit(s[h + 2 * j + 1]) == ie[8 + j] / 16
  {
    var plmn, msin := ie[1..4], ie[8..];
    ImsiNibblesAt(plmn, msin);
    var ns := ImsiNibbles(plmn, msin);
    AllDecimalImsi(ie);
    forall i | 0 <= i < |ns| ensures |Render(ns)| == |ns| && Digit(Render(ns)[i]) == ns[i] {
      RenderAt(ns, i);
    }
    RenderLength(ns);
  }

  lemma AllDecimalImsi(ie: seq<byte>)
    requires |ie| >= 12 && DecimalOctet(ie[1]) && DecimalOctet(ie[3])
    requires ie[2] % 16 < 10 && (ie[2] / 16 < 10 || ie[2] / 16 == 15) && forall j | 8 <= j < |ie| :: DecimalOctet(ie[j])
    ensures AllDecimal(ImsiNibbles(ie[1..4], ie[8..]))
  {
    var msin := ie[8..];
    ImsiNibblesAt(ie[1..4], msin);
    var ns, h := ImsiNibbles(ie[1..4], msin), if ie[2] / 16 == 15 then 5 else 6;
    forall i | 0 <= i < |ns| ensures ns[i] < 10 {
      if i >= h {
        var j := (i - h) / 2;
        assert DecimalOctet(ie[8 + j]) && msin[j] == ie[8 + j];
        assert i == h + 2 * j || i == h + 2 * j + 1;
      }
    }
  }

  method GatherNibbles(plmn: seq<byte>, msin: seq<byte>) returns (ns: seq<Nibble>)
    requires |plmn| == 3
    ensures ns == ImsiNibbles(plmn, msin)
  {
    ns := [plmn[0] % 16, plmn[0] / 16, plmn[1] % 16];
    if plmn[1] / 16 != FILLER {
      ns := ns + [plmn[1] / 16];
    }
    ns := ns + [plmn[2] % 16, plmn[2] / 16];
    PlmnHead(plmn, ns);
    ns := AppendNibbles(ns, msin);
  }

  method AppendNibbles(head: seq<Nibble>, msin: seq<byte>) returns (ns: seq<Nibble>)
    ensures ns == head + Nibbles(msin)
  {
    ns := head;
    for i := 0 to |msin|
      invariant ns == head + Nibbles(msin[..i])
    {
      NibblesTake(msin, i);
      ns := ns + [msin[i] % 16, msin[i] / 16];
    }
    assert msin[..|msin|] == msin;
  }

  lemma PlmnHead(plmn: seq<byte>, head: seq<Nibble>)
    requires |plmn| == 3
    requires head == [plmn[0] % 16, plmn[0] / 16, plmn[1] % 16]
                     + (if plmn[1] / 16 != FILLER then [plmn[1] / 16] else []) + [plmn[2] % 16, plmn[2] / 16]
    ensures head == Unfilled(Nibbles(plmn))
  {
    NibblesSnoc([], plmn[0]);
    NibblesSnoc([plmn[0]], plmn[1]);
    NibblesSnoc([plmn[0], plmn[1]], plmn[2]);
    assert plmn == [plmn[0], plmn[1]] + [plmn[2]] && [plmn[0], plmn[1]] == [plmn[0]] + [plmn[1]];
    assert [plmn[0]] == [] + [plmn[0]];
  }

  method WriteDecimal(ns: seq<Nibble>) returns (s: string)
    ensures s == Render(ns)
  {
    s := "";
    for i := 0 to |ns|
      invariant s == Render(ns[..i])
    {
      s := s + Decimal(ns[i]);
      assert ns[..i + 1][..i] == ns[..i];
    }
    assert ns[..|ns|] == ns;
  }

  method FgsMobileIdentity(ie: seq<byte>) returns (r: Option<Identity>)
    ensures r == Parse(ie)
  {
    if |ie| < 12 || ie[0] != SUPI {
      return None;
    }
    var ns := GatherNibbles(ie[1..4], ie[8..]);
    var s := WriteDecimal(ns);
    r := Some(Identity(s, ie[1..4]));
  }

  /** The identity a UE sends: type, home network, four octets of routing data, packed MSIN. */
  function SupiIe(plmn: seq<byte>, routing: seq<byte>, msin: seq<Nibble>): (ie: seq<byte>)
    requires |plmn| == 3 && |routing| == 4 && |msin| % 2 == 0
    ensures |ie| == 8 + |msin| / 2
  {
    [SUPI] + plmn + routing + Pack(msin)
  }

  lemma SupiParts(plmn: seq<byte>, routing: seq<byte>, msin: seq<byte>)
    requires |plmn| == 3 && |routing| == 4
    ensures var ie := [SUPI] + plmn + routing + msin; ie[0] == SUPI && ie[1..4] == plmn && ie[8..] == msin
  {
  }

  lemma ConfiguredHead(mcc: string, mnc: string)
    requires ValidCodes(mcc, mnc)
    ensures Unfilled(PlmnNibbles(mcc, mnc)) == Values(mcc) + Values(mnc)
  {
    var p := PlmnNibbles(mcc, mnc);
    if |mnc| == 2 {
      assert p[3] == FILLER && p[..3] == Values(mcc) && p[4..] == Values(mnc);
    } else {
      assert p == Values(mcc) + Values(mnc) && p[3] == Values(mnc)[0];
    }
  }

  /** For any MSIN nibbles at all: what the parser makes of the identity of a configured network. */
  lemma ParseOfConfigured(mcc: string, mnc: string, routing: seq<byte>, msin: seq<Nibble>)
    requires ValidCodes(mcc, mnc) && |routing| == 4 && |msin| % 2 == 0 && |msin| >= 8
    ensures Parse(SupiIe(PlmnBytes(mcc, mnc), routing, msin))
         == Some(Identity(mcc + mnc + Render(msin), PlmnBytes(mcc, mnc)))
  {
    var plmn := PlmnBytes(mcc, mnc);
    var ie := SupiIe(plmn, routing, msin);
    SupiParts(plmn, routing, Pack(msin));
    ConfiguredHead(mcc, mnc);
    var head := Values(mcc) + Values(mnc);
    assert ImsiNibbles(plmn, Pack(msin)) == head + msin;
    RenderConcat(head, msin);
    RenderConcat(Values(mcc), Values(mnc));
    RenderValues(mcc);
    RenderValues(mnc);
  }

  /** The nibbles a UE sends for its MSIN: an odd digit is followed by a filler. */
  function MsinNibbles(msin: string): (ns: seq<Nibble>)
    requires AllDigits(msin)
    ensures |ns| % 2 == 0
  {
    if |msin| % 2 == 0 then Values(msin) else Values(msin) + [FILLER]
  }

  /** Round trip: MCC, MNC and an even-length MSIN come back as the IMSI and the same PLMN. */
  lemma ImsiRoundTrip(mcc: string, mnc: string, routing: seq<byte>, msin: string)
    requires ValidCodes(mcc, mnc) && |routing| == 4
    requires AllDigits(msin) && |msin| % 2 == 0 && |msin| >= 8
    ensures Parse(SupiIe(PlmnBytes(mcc, mnc), routing, Values(msin)))
         == Some(Identity(mcc + mnc + msin, PlmnBytes(mcc, mnc)))
  {
    ParseOfConfigured(mcc, mnc, routing, Values(msin));
    RenderValues(msin);
  }

  lemma RenderFiller(msin: string)
    requires AllDigits(msin)
    ensures Render(Values(msin) + [FILLER]) == msin + "15"
  {
    var ns := Values(msin) + [FILLER];
    assert ns[..|ns| - 1] == Values(msin);
    RenderValues(msin);
  }

  /** An odd-length MSIN carries a filler nibble, and the parser writes that filler out as "15". */
  lemma OddMsinGainsFifteen(mcc: string, mnc: string, routing: seq<byte>, msin: string)
    requires ValidCodes(mcc, mnc) && |routing| == 4
    requires AllDigits(msin) && |msin| % 2 == 1 && |msin| >= 7
    ensures Parse(SupiIe(PlmnBytes(mcc, mnc), routing, MsinNibbles(msin)))
         == Some(Identity(mcc + mnc + (msin + "15"), PlmnBytes(mcc, mnc)))
  {
    ParseOfConfigured(mcc, mnc, routing, MsinNibbles(msin));
    RenderFiller(msin);
  }

  /** What the parser makes of those digits. */
  function Parsed(msin: string): (s: string)
    ensures |s| % 2 == |msin| % 2
    ensures s == msin <==> |msin| % 2 == 0
  {
    if |msin| % 2 == 0 then msin else msin + "15"
  }

  /** The IMSI of a subscriber is MCC, MNC and MSIN iff the MSIN has an even number of digits. */
  lemma ImsiExactIffEven(mcc: string, mnc: string, routing: seq<byte>, msin: string)
    requires ValidCodes(mcc, mnc) && |routing| == 4 && AllDigits(msin) && |msin| >= 7
    ensures Parse(SupiIe(PlmnBytes(mcc, mnc), routing, MsinNibbles(msin)))
         == Some(Identity(mcc + mnc + Parsed(msin), PlmnBytes(mcc, mnc)))
    ensures mcc + mnc + Parsed(msin) == mcc + mnc + msin <==> |msin| % 2 == 0
  {
    if |msin| % 2 == 0 {
      ImsiRoundTrip(mcc, mnc, routing, msin);
    } else {
      OddMsinGainsFifteen(mcc, mnc, routing, msin);
    }
    AppendInjective(mcc + mnc, Parsed(msin), msin);
  }

  lemma AppendInjective(h: string, s: string, t: string)
    ensures h + s == h + t <==> s == t
  {
    assert (h + s)[|h|..] == s && (h + t)[|h|..] == t;
  }

  lemma ParsedInjective(s: string, t: string)
    ensures Parsed(s) == Parsed(t) <==> s == t
  {
    assert Parsed(s)[..|s|] == s && Parsed(t)[..|t|] == t;
  }

  /** The IMSI has one character per identity digit iff every MSIN nibble is a decimal digit. */
  lemma ImsiLengthExact(mcc: string, mnc: string, routing: seq<byte>, msin: seq<Nibble>)
    requires ValidCodes(mcc, mnc) && |routing| == 4 && |msin| % 2 == 0 && |msin| >= 8
    ensures Parse(SupiIe(PlmnBytes(mcc, mnc), routing, msin)).Some?
    ensures |Parse(SupiIe(PlmnBytes(mcc, mnc), routing, msin)).value.imsi| == |mcc| + |mnc| + |msin|
       <==> AllDecimal(msin)
  {
    ParseOfConfigured(mcc, mnc, routing, msin);
    RenderLength(msin);
  }

  /** Under one PLMN, distinct MSINs are distinct subscribers, whatever their lengths. */
  lemma DistinctMsinDistinctImsi(mcc: string, mnc: string, r1: seq<byte>, r2: seq<byte>, m1: string, m2: string)
    requires ValidCodes(mcc, mnc) && |r1| == 4 && |r2| == 4 && m1 != m2
    requires AllDigits(m1) && |m1| >= 7 && AllDigits(m2) && |m2| >= 7
    ensures var i1 := Parse(SupiIe(PlmnBytes(mcc, mnc), r1, MsinNibbles(m1)));
      var i2 := Parse(SupiIe(PlmnBytes(mcc, mnc), r2, MsinNibbles(m2)));
      i1.Some? && i2.Some? && i1.value.imsi != i2.value.imsi
  {
    ImsiExactIffEven(mcc, mnc, r1, m1);
    ImsiExactIffEven(mcc, mnc, r2, m2);
    ParsedInjective(m1, m2);
    AppendInjective(mcc + mnc, Parsed(m1), Parsed(m2));
  }

  // ---- When two identities of one network are read as one subscriber ----

  /** Nibbles from ten upwards replaced by the two digits they are written with. */
  function Spread(ns: seq<Nibble>): (r: seq<Nibble>)
    ensures AllDecimal(r)
  {
    if ns == [] then [] else Spread(ns[..|ns| - 1]) + Digits(ns[|ns| - 1])
  }

  function Digits(n: Nibble): (r: seq<Nibble>) {
    if n < 10 then [n] else [1, n - 10]
  }

  lemma RenderDigits(n: Nibble)
    ensures Render(Digits(n)) == Decimal(n)
  {
    if n < 10 {
      assert Digits(n)[..0] == [];
    } else {
      RenderPair(1, n - 10);
    }
  }

  lemma {:induction false} RenderSpread(ns: seq<Nibble>)
    ensures Render(Spread(ns)) == Render(ns)
  {
    if ns != [] {
      var init, n := ns[..|ns| - 1], ns[|ns| - 1];
      RenderSpread(init);
      RenderConcat(Spread(init), Digits(n));
      RenderDigits(n);
    }
  }

  lemma {:induction false} DecimalInjective(a: seq<Nibble>, b: seq<Nibble>)
    requires AllDecimal(a) && AllDecimal(b) && |a| == |b| && Render(a) == Render(b)
    ensures a == b
    decreases |a|
  {
    if a != [] {
      var k := |a| - 1;
      LastSplits(Render(a[..k]), Decimal(a[k]), Render(b[..k]), Decimal(b[k]));
      DecimalDigit(a[k], b[k]);
      DecimalInjective(a[..k], b[..k]);
      LastEqual(a, b, k);
    }
  }

  lemma LastEqual<T>(a: seq<T>, b: seq<T>, k: nat)
    requires |a| == |b| == k + 1 && a[..k] == b[..k] && a[k] == b[k]
    ensures a == b
  {
    assert a == a[..k] + [a[k]] && b == b[..k] + [b[k]];
  }

  lemma DecimalDigit(x: Nibble, y: Nibble)
    requires x < 10 && y < 10 && Decimal(x) == Decimal(y)
    ensures x == y
  {
    assert Decimal(x)[0] == Decimal(y)[0];
  }

  lemma LastSplits(s: string, c: string, t: string, d: string)
    requires s + c == t + d && |c| == |d|
    ensures s == t && c == d
  {
    assert (s + c)[..|s|] == s && (t + d)[..|t|] == t;
    assert (s + c)[|s|..] == c && (t + d)[|t|..] == d;
  }

  /** Two nibble strings are written alike iff they are the same digits once spread. */
  lemma RenderEqualIffSpread(a: seq<Nibble>, b: seq<Nibble>)
    ensures Render(a) == Render(b) <==> Spread(a) == Spread(b)
  {
    RenderSpread(a);
    RenderSpread(b);
    RenderLength(Spread(a));
    RenderLength(Spread(b));
    if Render(a) == Render(b) {
      DecimalInjective(Spread(a), Spread(b));
    }
  }

  /** Two identities of one network are read as one subscriber iff their MSIN nibbles spread to the same digits. */
  lemma SameSubscriberIffSpread(mcc: string, mnc: string, r1: seq<byte>, r2: seq<byte>, m1: seq<Nibble>, m2: seq<Nibble>)
    requires ValidCodes(mcc, mnc) && |r1| == 4 && |r2| == 4
    requires |m1| % 2 == 0 && |m1| >= 8 && |m2| % 2 == 0 && |m2| >= 8
    ensures Parse(SupiIe(PlmnBytes(mcc, mnc), r1, m1)) == Parse(SupiIe(PlmnBytes(mcc, mnc), r2, m2))
       <==> Spread(m1) == Spread(m2)
  {
    ParseOfConfigured(mcc, mnc, r1, m1);
    ParseOfConfigured(mcc, mnc, r2, m2);
    AppendInjective(mcc + mnc, Render(m1), Render(m2));
    RenderEqualIffSpread(m1, m2);
  }

  lemma {:induction false} SpreadConcat(a: seq<Nibble>, b: seq<Nibble>)
    ensures Spread(a + b) == Spread(a) + Spread(b)
  {
    if b == [] {
      assert a + b == a;
    } else {
      var b' := b[..|b| - 1];
      assert (a + b)[..|a + b| - 1] == a + b';
      SpreadConcat(a, b');
    }
  }

  lemma HeadsCollide(mcc: string, mnc: string, routing: seq<byte>, h1: seq<Nibble>, h2: seq<Nibble>, rest: seq<Nibble>)
    requires ValidCodes(mcc, mnc) && |routing| == 4 && Spread(h1) == Spread(h2)
    requires |h1 + rest| % 2 == 0 && |h1 + rest| >= 8 && |h2 + rest| % 2 == 0 && |h2 + rest| >= 8
    ensures Parse(SupiIe(PlmnBytes(mcc, mnc), routing, h1 + rest)) == Parse(SupiIe(PlmnBytes(mcc, mnc), routing, h2 + rest))
  {
    SpreadConcat(h1, rest);
    SpreadConcat(h2, rest);
    SameSubscriberIffSpread(mcc, mnc, routing, routing, h1 + rest, h2 + rest);
  }

  lemma SpreadPair(x: Nibble, y: Nibble)
    ensures Spread([x, y]) == Digits(x) + Digits(y)
  {
    assert [x, y][..1] == [x] && [x][..0] == [];
    assert Spread([x]) == Digits(x);
  }

  lemma SpreadTens()
    ensures Spread([10, 10]) == Spread([1, 0, 1, 0])
  {
    SpreadPair(10, 10);
    SpreadPair(1, 0);
    SpreadConcat([1, 0], [1, 0]);
    assert [1, 0] + [1, 0] == [1, 0, 1, 0];
  }

  /** So a decimal MSIN and one that is not decimal can be one subscriber, and so can two that are not. */
  lemma HexNibblesCollide(mcc: string, mnc: string, routing: seq<byte>, rest: seq<Nibble>)
    returns (decimal: seq<Nibble>, hex: seq<Nibble>)
    requires ValidCodes(mcc, mnc) && |routing| == 4 && |rest| % 2 == 0 && |rest| >= 6
    ensures decimal == [1, 0, 1, 0] + rest && hex == [10, 10] + rest
    ensures Parse(SupiIe(PlmnBytes(mcc, mnc), routing, decimal)) == Parse(SupiIe(PlmnBytes(mcc, mnc), routing, hex))
  {
    decimal, hex := [1, 0, 1, 0] + rest, [10, 10] + rest;
    SpreadTens();
    HeadsCollide(mcc, mnc, routing, [1, 0, 1, 0], [10, 10], rest);
  }

  lemma RenderPair(x: Nibble, y: Nibble)
    ensures Render([x, y]) == Decimal(x) + Decimal(y)
  {
    assert [x, y][..1] == [x] && [x][..0] == [];
    assert Render([x]) == Decimal(x);
  }
}
