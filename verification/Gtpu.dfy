/**
 The GTP-U header walk of the uplink pipeline. A header with optional fields ends in the type of
 the first extension header, zero for none; each extension header starts with its length in units
 of four octets and ends in the type of the next one (section 5.2.1 of TS 29.281). The pipeline
 walks that chain in a loop over its receive buffer.
 */
module Gtpu {
  import opened Bytes

  const GTP_BASE_HEADER_LEN: nat := 8
  const GTP_EXTENDED_HEADER_LEN: nat := 12
  const GTP_EXT_HEADER_LEN_NRUP_DL_USER_DATA: nat := 8
  const PDCP_HEADER_LEN: nat := 2
  const SDAP_HEADER_LEN: nat := 1
  const IPV4_HEADER_LEN: nat := 20
  const GTP_MESSAGE_TYPE_GPDU: byte := 255
  const BUFFER_LEN: nat := 2000

  /** What must still follow the GTP header: PDCP, SDAP and IPv4 headers. */
  const REST: nat := PDCP_HEADER_LEN + SDAP_HEADER_LEN + IPV4_HEADER_LEN

  /** How the walk ends: at the first octet after the headers, short of data, or never. */
  datatype Walk = Stop(offset: nat) | TooShort | Endless

  function WalkFrom(b: seq<byte>, n: nat, offset: nat): (r: Walk)
    requires 1 <= offset < n <= |b|
    ensures r.Stop? ==> offset <= r.offset < n && (r.offset == offset || r.offset + REST <= n)
    ensures r.Stop? && r.offset == offset ==> b[offset - 1] == 0
    decreases n - offset
  {
    if b[offset - 1] == 0 then Stop(offset) else
      var next := offset + b[offset] as int * 4;
      if n < next + REST then TooShort
      else if next == offset then Endless
      else WalkFrom(b, n, next)
  }

  // ---- The loop itself, turn by turn ----

  datatype LoopState = At(offset: nat) | Left(offset: nat) | Dropped

  ghost predicate InBuffer(b: seq<byte>, n: nat, st: LoopState) {
    n <= |b| && (st.At? ==> 1 <= st.offset < n)
  }

  /** One evaluation of the guard and, if it holds, of the body. */
  function Turn(b: seq<byte>, n: nat, st: LoopState): (r: LoopState)
    requires InBuffer(b, n, st)
    ensures InBuffer(b, n, r)
  {
    if !st.At? then st
    else if b[st.offset - 1] == 0 then Left(st.offset)
    else
      var next := st.offset + b[st.offset] as int * 4;
      if n < next + REST then Dropped else At(next)
  }

  function Turns(b: seq<byte>, n: nat, st: LoopState, k: nat): (r: LoopState)
    requires InBuffer(b, n, st)
    ensures InBuffer(b, n, r)
    decreases k
  {
    if k == 0 then st else Turns(b, n, Turn(b, n, st), k - 1)
  }

  lemma {:induction false} EndedStays(b: seq<byte>, n: nat, st: LoopState, k: nat)
    requires InBuffer(b, n, st) && !st.At?
    ensures Turns(b, n, st, k) == st
  {
    if k > 0 {
      EndedStays(b, n, st, k - 1);
    }
  }

  /** The walk says what the loop does: where and how it ends, after how many turns. */
  lemma {:induction false} WalkIsLoop(b: seq<byte>, n: nat, offset: nat) returns (k: nat)
    requires 1 <= offset < n <= |b| && !WalkFrom(b, n, offset).Endless?
    ensures k <= n - offset
    ensures Turns(b, n, At(offset), k) ==
      match WalkFrom(b, n, offset) case Stop(o) => Left(o) case _ => Dropped
    decreases n - offset
  {
    var next := offset + b[offset] as int * 4;
    if b[offset - 1] == 0 || n < next + REST {
      k := 1;
      assert Turns(b, n, Turn(b, n, At(offset)), 0) == Turn(b, n, At(offset));
    } else {
      k := WalkIsLoop(b, n, next);
      k := k + 1;
    }
  }

  lemma {:induction false} EndlessNeverLeaves(b: seq<byte>, n: nat, offset: nat, k: nat)
    requires 1 <= offset < n <= |b| && WalkFrom(b, n, offset).Endless?
    ensures Turns(b, n, At(offset), k).At?
    decreases k
  {
    if k > 0 {
      EndlessNeverLeaves(b, n, offset + b[offset] as int * 4, k - 1);
    }
  }

  /** The loop ends, on any buffer, exactly when the walk is not endless. */
  lemma LoopEndsIffNotEndless(b: seq<byte>, n: nat, offset: nat)
    requires 1 <= offset < n <= |b|
    ensures (exists k: nat :: !Turns(b, n, At(offset), k).At?) <==> !WalkFrom(b, n, offset).Endless?
  {
    if WalkFrom(b, n, offset).Endless? {
      forall k: nat ensures Turns(b, n, At(offset), k).At? { EndlessNeverLeaves(b, n, offset, k); }
    } else {
      var k := WalkIsLoop(b, n, offset);
      assert !Turns(b, n, At(offset), k).At?;
    }
  }

  /** A visited extension header of length zero, with enough data behind it: the loop turns in place. */
  ghost predicate ZeroLengthAt(b: seq<byte>, n: nat, o: nat) {
    1 <= o && o + REST <= n <= |b| && b[o - 1] != 0 && b[o] == 0
  }

  lemma {:induction false} VisitEndless(b: seq<byte>, n: nat, offset: nat, k: nat, o: nat)
    requires 1 <= offset < n <= |b| && Turns(b, n, At(offset), k) == At(o) && ZeroLengthAt(b, n, o)
    ensures WalkFrom(b, n, offset).Endless?
    decreases k
  {
    if k > 0 {
      var st := Turn(b, n, At(offset));
      if !st.At? {
        EndedStays(b, n, st, k - 1);
      } else if st.offset != offset {
        VisitEndless(b, n, st.offset, k - 1, o);
      }
    }
  }

  lemma {:induction false} EndlessVisit(b: seq<byte>, n: nat, offset: nat) returns (k: nat, o: nat)
    requires 1 <= offset < n <= |b| && WalkFrom(b, n, offset).Endless?
    ensures Turns(b, n, At(offset), k) == At(o) && ZeroLengthAt(b, n, o)
    decreases n - offset
  {
    var next := offset + b[offset] as int * 4;
    if next == offset {
      k, o := 0, offset;
    } else {
      k, o := EndlessVisit(b, n, next);
      k := k + 1;
    }
  }

  /** It fails to end exactly when it visits an extension header whose length octet is zero. */
  lemma EndlessIffZeroLength(b: seq<byte>, n: nat, offset: nat)
    requires 1 <= offset < n <= |b|
    ensures WalkFrom(b, n, offset).Endless?
       <==> exists k: nat, o: nat :: Turns(b, n, At(offset), k) == At(o) && ZeroLengthAt(b, n, o)
  {
    if WalkFrom(b, n, offset).Endless? {
      var k, o := EndlessVisit(b, n, offset);
    }
    forall k: nat, o: nat | Turns(b, n, At(offset), k) == At(o) && ZeroLengthAt(b, n, o)
      ensures WalkFrom(b, n, offset).Endless?
    {
      VisitEndless(b, n, offset, k, o);
    }
  }

  /** A visited extension header that leaves too little room for the headers and the packet behind it. */
  ghost predicate OverrunAt(b: seq<byte>, n: nat, o: nat) {
    1 <= o < n <= |b| && b[o - 1] != 0 && n < o + b[o] as int * 4 + REST
  }

  lemma {:induction false} VisitTooShort(b: seq<byte>, n: nat, offset: nat, k: nat, o: nat)
    requires 1 <= offset < n <= |b| && Turns(b, n, At(offset), k) == At(o) && OverrunAt(b, n, o)
    ensures WalkFrom(b, n, offset).TooShort?
    decreases k
  {
    if k > 0 {
      var st := Turn(b, n, At(offset));
      if !st.At? {
        EndedStays(b, n, st, k - 1);
      } else {
        VisitTooShort(b, n, st.offset, k - 1, o);
      }
    }
  }

  lemma {:induction false} TooShortVisit(b: seq<byte>, n: nat, offset: nat) returns (k: nat, o: nat)
    requires 1 <= offset < n <= |b| && WalkFrom(b, n, offset).TooShort?
    ensures Turns(b, n, At(offset), k) == At(o) && OverrunAt(b, n, o)
    decreases n - offset
  {
    var next := offset + b[offset] as int * 4;
    if n < next + REST {
      k, o := 0, offset;
    } else {
      k, o := TooShortVisit(b, n, next);
      k := k + 1;
    }
  }

  /** It gives the datagram up exactly when it visits such a header. */
  lemma TooShortIffOverrun(b: seq<byte>, n: nat, offset: nat)
    requires 1 <= offset < n <= |b|
    ensures WalkFrom(b, n, offset).TooShort?
       <==> exists k: nat, o: nat :: Turns(b, n, At(offset), k) == At(o) && OverrunAt(b, n, o)
  {
    if WalkFrom(b, n, offset).TooShort? {
      var k, o := TooShortVisit(b, n, offset);
    }
    forall k: nat, o: nat | Turns(b, n, At(offset), k) == At(o) && OverrunAt(b, n, o)
      ensures WalkFrom(b, n, offset).TooShort?
    {
      VisitTooShort(b, n, offset, k, o);
    }
  }

  // ---- The reference: extension headers as written by a sender ----

  datatype Ext = Ext(kind: byte, content: seq<byte>)

  ghost predicate ValidExt(e: Ext) {
    e.kind != 0 && |e.content| % 4 == 2 && |e.content| + 2 <= 4 * 255
  }

  ghost predicate ValidExts(exts: seq<Ext>) {
    forall i | 0 <= i < |exts| :: ValidExt(exts[i])
  }

  function FirstKind(exts: seq<Ext>): (k: byte) {
    if exts == [] then 0 else exts[0].kind
  }

  /** The octets of a chain, from the first length octet to the last next-type octet. */
  ghost function Serialize(exts: seq<Ext>): (s: seq<byte>)
    requires ValidExts(exts)
  {
    if exts == [] then [] else
      assert ValidExt(exts[0]);
      [LengthOctet(exts[0])] + exts[0].content + [FirstKind(exts[1..])] + Serialize(exts[1..])
  }

  /** The length of an extension header in units of four octets. */
  function LengthOctet(e: Ext): (x: byte)
    requires ValidExt(e)
    ensures x as int * 4 == |e.content| + 2 && x >= 1
  {
    (|e.content| + 2) / 4
  }

  /** A chain sits in the buffer from offset on. */
  ghost predicate ChainAt(b: seq<byte>, offset: nat, exts: seq<Ext>)
    requires ValidExts(exts)
  {
    && 1 <= offset && offset + |Serialize(exts)| <= |b|
    && b[offset - 1] == FirstKind(exts)
    && b[offset..offset + |Serialize(exts)|] == Serialize(exts)
  }

  lemma FourParts(x: byte, c: seq<byte>, k: byte, rest: seq<byte>)
    ensures var s := [x] + c + [k] + rest; s[0] == x && s[|c| + 1] == k && s[|c| + 2..] == rest
  {
  }

  lemma SerializeHead(exts: seq<Ext>)
    requires ValidExts(exts) && exts != []
    ensures var s, l := Serialize(exts), |exts[0].content| + 2;
      && l <= |s| && s[0] as int * 4 == l && s[l - 1] == FirstKind(exts[1..]) && s[l..] == Serialize(exts[1..])
  {
    var e := exts[0];
    assert ValidExt(e);
    FourParts(LengthOctet(e), e.content, FirstKind(exts[1..]), Serialize(exts[1..]));
  }

  lemma SliceParts(b: seq<byte>, offset: nat, s: seq<byte>, l: nat, rest: seq<byte>)
    requires offset + |s| <= |b| && b[offset..offset + |s|] == s && 1 <= l <= |s| && s[l..] == rest
    ensures b[offset] == s[0] && b[offset + l - 1] == s[l - 1]
    ensures offset + l + |rest| == offset + |s| && b[offset + l..offset + l + |rest|] == rest
  {
    var w := b[offset..offset + |s|];
    assert w[0] == b[offset] && w[l - 1] == b[offset + l - 1];
    assert b[offset + l..offset + |s|] == w[l..];
  }

  lemma ChainHead(b: seq<byte>, offset: nat, exts: seq<Ext>)
    requires ValidExts(exts) && exts != [] && ChainAt(b, offset, exts)
    ensures var next := offset + b[offset] as int * 4;
      && b[offset] as int * 4 == |exts[0].content| + 2
      && next + |Serialize(exts[1..])| == offset + |Serialize(exts)|
      && ChainAt(b, next, exts[1..])
  {
    var tail, l := exts[1..], |exts[0].content| + 2;
    var s, rest, next := Serialize(exts), Serialize(tail), offset + l;
    SerializeHead(exts);
    SliceParts(b, offset, s, l, rest);
    assert b[offset] as int * 4 == l && b[next - 1] == FirstKind(tail);
    assert ChainAt(b, next, tail) && next + |rest| == offset + |s|;
  }

  lemma ChainCons(b: seq<byte>, offset: nat, e: Ext, rest: seq<Ext>)
    requires ValidExt(e) && ValidExts(rest) && 1 <= offset < |b|
    requires b[offset - 1] == e.kind && b[offset] as int * 4 == |e.content| + 2
    requires offset + |e.content| + 2 <= |b| && e.content == b[offset + 1..offset + 1 + |e.content|]
    requires ChainAt(b, offset + |e.content| + 2, rest)
    ensures ValidExts([e] + rest) && ChainAt(b, offset, [e] + rest)
    ensures offset + |Serialize([e] + rest)| == offset + |e.content| + 2 + |Serialize(rest)|
  {
    var exts := [e] + rest;
    assert exts[1..] == rest && exts[0] == e;
    var s, r := Serialize(exts), Serialize(rest);
    var next := offset + |e.content| + 2;
    assert LengthOctet(e) == b[offset];
    assert s == [b[offset]] + e.content + [b[next - 1]] + r;
    JoinParts(b, offset, next, next + |r|);
  }

  lemma JoinParts(b: seq<byte>, offset: nat, next: nat, end: nat)
    requires offset + 2 <= next <= end <= |b|
    ensures b[offset..end] == [b[offset]] + b[offset + 1..next - 1] + [b[next - 1]] + b[next..end]
  {
  }

  /** Any well-formed chain is skipped to exactly its end. */
  lemma {:induction false} WalkSkipsChain(b: seq<byte>, n: nat, offset: nat, exts: seq<Ext>)
    requires ValidExts(exts) && ChainAt(b, offset, exts) && offset < n <= |b|
    requires exts != [] ==> offset + |Serialize(exts)| + REST <= n
    ensures WalkFrom(b, n, offset) == Stop(offset + |Serialize(exts)|)
    decreases |exts|
  {
    if exts != [] {
      ChainHead(b, offset, exts);
      assert ValidExt(exts[0]);
      var next := offset + b[offset] as int * 4;
      assert next > offset && next + REST <= n;
      assert WalkFrom(b, n, offset) == WalkFrom(b, n, next);
      WalkSkipsChain(b, n, next, exts[1..]);
    }
  }

  /** And whatever the walk skips is a well-formed chain. */
  lemma {:induction false} WalkedIsChain(b: seq<byte>, n: nat, offset: nat) returns (exts: seq<Ext>)
    requires 1 <= offset < n <= |b| && WalkFrom(b, n, offset).Stop?
    ensures ValidExts(exts) && ChainAt(b, offset, exts)
    ensures WalkFrom(b, n, offset).offset == offset + |Serialize(exts)|
    decreases n - offset
  {
    if b[offset - 1] == 0 {
      exts := [];
    } else {
      var next := offset + b[offset] as int * 4;
      var rest := WalkedIsChain(b, n, next);
      var e := Ext(b[offset - 1], b[offset + 1..next - 1]);
      ChainCons(b, offset, e, rest);
      exts := [e] + rest;
    }
  }

  /** The walk stops at o iff a well-formed chain of extension headers ends there. */
  lemma WalkStopsIffChain(b: seq<byte>, n: nat, offset: nat, o: nat)
    requires 1 <= offset < n <= |b|
    ensures WalkFrom(b, n, offset) == Stop(o)
       <==> exists exts :: ValidExts(exts) && ChainAt(b, offset, exts) && o == offset + |Serialize(exts)|
                           && (exts == [] || o + REST <= n)
  {
    if WalkFrom(b, n, offset) == Stop(o) {
      var exts := WalkedIsChain(b, n, offset);
      if exts != [] {
        assert o + REST <= n;
      }
    }
    forall exts | ValidExts(exts) && ChainAt(b, offset, exts) && o == offset + |Serialize(exts)| && (exts == [] || o + REST <= n)
      ensures WalkFrom(b, n, offset) == Stop(o)
    {
      WalkSkipsChain(b, n, offset, exts);
    }
  }

  ghost function Units(exts: seq<Ext>): nat {
    if exts == [] then 0 else (|exts[0].content| + 2) / 4 + Units(exts[1..])
  }

  /** A chain takes four octets for each unit of its length octets. */
  lemma {:induction false} ChainLength(exts: seq<Ext>)
    requires ValidExts(exts)
    ensures |Serialize(exts)| == 4 * Units(exts)
  {
    if exts != [] {
      assert ValidExt(exts[0]);
      ChainLength(exts[1..]);
    }
  }

  /** The walk reads nothing beyond the n octets received. */
  lemma {:induction false} WalkReadsReceivedOnly(b1: seq<byte>, b2: seq<byte>, n: nat, offset: nat)
    requires 1 <= offset < n <= |b1| && n <= |b2| && b1[..n] == b2[..n]
    ensures WalkFrom(b1, n, offset) == WalkFrom(b2, n, offset)
    decreases n - offset
  {
    assert b1[offset - 1] == b1[..n][offset - 1] == b2[offset - 1];
    assert b1[offset] == b1[..n][offset] == b2[offset];
    var next := offset + b1[offset] as int * 4;
    if b1[offset - 1] != 0 && next + REST <= n && next != offset {
      WalkReadsReceivedOnly(b1, b2, n, next);
    }
  }
}
