/**
 The fixed forwarding tables of the user plane. A table has MAX_UES slots; a rule sits in the
 slot named by the last octet of its key and carries the full key, so that a lookup indexes by
 the last octet and then compares the whole key. The reference it is held against is a plain
 map keyed by the full key.
 */
module SlotTable {
  import opened Bytes

  const MAX_UES: nat := 254

  datatype Entry<+V> = Entry(key: Quad, value: V)

  type Table<+V> = seq<Option<Entry<V>>>

  /** The outcome of a lookup. OutOfRange is the index panic of an octet beyond the table. */
  datatype Found<+V> = OutOfRange | EmptySlot | OtherKey | Hit(value: V)

  function Slot(k: Quad): (i: nat) {
    k.d
  }

  ghost predicate Valid<V>(t: Table<V>) {
    && |t| == MAX_UES
    && forall i | 0 <= i < |t| && t[i].Some? :: Slot(t[i].value.key) == i
  }

  function Empty<V>(): (t: Table<V>)
    ensures Valid(t)
  {
    seq(MAX_UES, _ => None)
  }

  function Put<V>(t: Table<V>, k: Quad, v: V): (r: Table<V>)
    requires Slot(k) < |t|
  {
    t[Slot(k) := Some(Entry(k, v))]
  }

  function Clear<V>(t: Table<V>, k: Quad): (r: Table<V>)
    requires Slot(k) < |t|
  {
    t[Slot(k) := None]
  }

  function Lookup<V>(t: Table<V>, k: Quad): (r: Found<V>) {
    if Slot(k) >= |t| then OutOfRange
    else match t[Slot(k)]
      case None => EmptySlot
      case Some(e) => if e.key == k then Hit(e.value) else OtherKey
  }

  // ---- The reference: a map keyed by the full key ----

  ghost function Keys<V>(t: Table<V>): set<Quad> {
    set i | 0 <= i < |t| && t[i].Some? :: t[i].value.key
  }

  ghost function View<V>(t: Table<V>): (m: map<Quad, V>)
    requires Valid(t)
  {
    map k | k in Keys(t) :: t[Slot(k)].value.value
  }

  /** A lookup answers exactly as the map does, and panics exactly beyond the table. */
  lemma LookupIsMapLookup<V>(t: Table<V>, k: Quad)
    requires Valid(t)
    ensures Lookup(t, k).OutOfRange? <==> k.d >= 254
    ensures Lookup(t, k).Hit? <==> k in View(t)
    ensures k in View(t) ==> Lookup(t, k) == Hit(View(t)[k])
    ensures Lookup(t, k).OtherKey? <==> k !in View(t) && exists k2 :: k2 in View(t) && k2.d == k.d
  {
    if Slot(k) < MAX_UES && t[Slot(k)].Some? {
      assert t[Slot(k)].value.key in Keys(t);
    }
  }

  datatype Op<+V> = Add(key: Quad, value: V) | Remove(key: Quad)

  function OnTable<V>(t: Table<V>, op: Op<V>): (r: Table<V>)
    requires Slot(op.key) < |t|
  {
    match op
    case Add(k, v) => Put(t, k, v)
    case Remove(k) => Clear(t, k)
  }

  ghost function OnMap<V>(m: map<Quad, V>, op: Op<V>): map<Quad, V> {
    match op
    case Add(k, v) => m[k := v]
    case Remove(k) => m - {k}
  }

  /** Another live key of the map falls in the slot of k. */
  ghost predicate Clash<V>(m: map<Quad, V>, k: Quad) {
    exists k2 :: k2 in m && k2 != k && Slot(k2) == Slot(k)
  }

  lemma ViewAt<V>(t: Table<V>, k: Quad)
    requires Valid(t)
    ensures k in View(t) <==> Slot(k) < MAX_UES && t[Slot(k)].Some? && t[Slot(k)].value.key == k
    ensures k in View(t) ==> View(t)[k] == t[Slot(k)].value.value
  {
    if Slot(k) < MAX_UES && t[Slot(k)].Some? && t[Slot(k)].value.key == k {
      assert t[Slot(k)].value.key in Keys(t);
    }
  }

  /** One table operation does what the map operation does iff no other live key shares the slot. */
  lemma OpRefinesMapIffNoClash<V>(t: Table<V>, op: Op<V>)
    requires Valid(t) && Slot(op.key) < MAX_UES
    ensures Valid(OnTable(t, op))
    ensures View(OnTable(t, op)) == OnMap(View(t), op) <==> !Clash(View(t), op.key)
  {
    var r, m := OnTable(t, op), OnMap(View(t), op);
    forall k ensures k in View(r) <==> if Slot(k) == Slot(op.key) then op.Add? && k == op.key else k in View(t) {
      ViewAt(t, k);
      ViewAt(r, k);
    }
    if Clash(View(t), op.key) {
      var k2 :| k2 in View(t) && k2 != op.key && Slot(k2) == Slot(op.key);
      assert k2 in m && k2 !in View(r);
    } else {
      forall k ensures k in View(r) <==> k in m {
        assert k in View(t) && Slot(k) == Slot(op.key) ==> k == op.key;
      }
      forall k | k in m ensures View(r)[k] == m[k] {
        ViewAt(t, k);
        ViewAt(r, k);
      }
      assert View(r) == m;
    }
  }

  ghost predicate InRange<V>(ops: seq<Op<V>>) {
    forall i | 0 <= i < |ops| :: Slot(ops[i].key) < MAX_UES
  }

  ghost function TableAfter<V>(ops: seq<Op<V>>): (t: Table<V>)
    requires InRange(ops)
    ensures Valid(t)
  {
    if ops == [] then Empty() else
      var op := ops[|ops| - 1];
      var before := TableAfter(ops[..|ops| - 1]);
      OpRefinesMapIffNoClash(before, op);
      OnTable(before, op)
  }

  ghost function MapAfter<V>(ops: seq<Op<V>>): map<Quad, V> {
    if ops == [] then map[] else OnMap(MapAfter(ops[..|ops| - 1]), ops[|ops| - 1])
  }

  ghost predicate AgreeAt<V>(ops: seq<Op<V>>, p: nat)
    requires InRange(ops) && p <= |ops|
  {
    View(TableAfter(ops[..p])) == MapAfter(ops[..p])
  }

  ghost predicate NoClashAt<V>(ops: seq<Op<V>>, p: nat)
    requires p < |ops|
  {
    !Clash(MapAfter(ops[..p]), ops[p].key)
  }

  lemma StepAgrees<V>(ops: seq<Op<V>>, p: nat)
    requires InRange(ops) && p < |ops| && AgreeAt(ops, p)
    ensures AgreeAt(ops, p + 1) <==> NoClashAt(ops, p)
  {
    assert ops[..p + 1][..p] == ops[..p] && ops[..p + 1][p] == ops[p];
    OpRefinesMapIffNoClash(TableAfter(ops[..p]), ops[p]);
  }

  lemma EmptyAgrees<V>(ops: seq<Op<V>>)
    requires InRange(ops)
    ensures AgreeAt(ops, 0)
  {
    assert View(Empty<V>()) == map[];
  }

  lemma {:induction false} NoClashGivesAgreement<V>(ops: seq<Op<V>>, p: nat)
    requires InRange(ops) && p <= |ops| && forall i | 0 <= i < |ops| :: NoClashAt(ops, i)
    ensures AgreeAt(ops, p)
  {
    if p == 0 {
      EmptyAgrees(ops);
    } else {
      NoClashGivesAgreement(ops, p - 1);
      StepAgrees(ops, p - 1);
      assert NoClashAt(ops, p - 1);
    }
  }

  /**
   After every prefix of every sequence of additions and removals the table is the map, iff no
   operation ever meets a different live key in its slot.
   */
  lemma TableIsMapIffNoClash<V>(ops: seq<Op<V>>)
    requires InRange(ops)
    ensures (forall p | 0 <= p <= |ops| :: AgreeAt(ops, p)) <==> (forall p | 0 <= p < |ops| :: NoClashAt(ops, p))
  {
    if forall p | 0 <= p < |ops| :: NoClashAt(ops, p) {
      forall p | 0 <= p <= |ops| ensures AgreeAt(ops, p) { NoClashGivesAgreement(ops, p); }
    }
    if forall p | 0 <= p <= |ops| :: AgreeAt(ops, p) {
      forall p | 0 <= p < |ops| ensures NoClashAt(ops, p) {
        assert AgreeAt(ops, p) && AgreeAt(ops, p + 1);
        StepAgrees(ops, p);
      }
    }
  }

  /** Two keys of one slot: the table forgets the first, the map would not. */
  lemma SharedSlotForgets()
    ensures
      var ops := [Add(Quad(1, 0, 0, 5), ()), Add(Quad(2, 0, 0, 5), ())];
      InRange(ops) && Lookup(TableAfter(ops), Quad(1, 0, 0, 5)) == OtherKey && Quad(1, 0, 0, 5) in MapAfter(ops)
  {
    var ops := [Add(Quad(1, 0, 0, 5), ()), Add(Quad(2, 0, 0, 5), ())];
    assert ops[..1] == [ops[0]] && ops[..1][..0] == [];
    assert TableAfter(ops) == OnTable(TableAfter(ops[..1]), ops[1]);
    assert MapAfter(ops) == OnMap(MapAfter(ops[..1]), ops[1]);
    assert MapAfter(ops[..1]) == OnMap(MapAfter([]), ops[0]);
  }

  /** The shared vector of slots, updated in place. */
  class ForwardingTable<V> {
    const slots: array<Option<Entry<V>>>

    ghost predicate WellFormed()
      reads slots
    {
      Valid(slots[..])
    }

    constructor ()
      ensures WellFormed() && fresh(slots) && slots[..] == Empty()
    {
      slots := new Option<Entry<V>>[MAX_UES](_ => None);
    }

    method AddRule(k: Quad, v: V)
      requires WellFormed() && Slot(k) < MAX_UES
      modifies slots
      ensures WellFormed() && slots[..] == Put(old(slots[..]), k, v)
    {
      slots[Slot(k)] := Some(Entry(k, v));
    }

    method RemoveRule(k: Quad)
      requires WellFormed() && Slot(k) < MAX_UES
      modifies slots
      ensures WellFormed() && slots[..] == Clear(old(slots[..]), k)
    {
      slots[Slot(k)] := None;
    }

    /** Index by the last octet, then compare the full key. */
    method Find(k: Quad) returns (r: Found<V>)
      requires WellFormed()
      ensures r.OutOfRange? <==> Slot(k) >= MAX_UES
      ensures r.Hit? <==> k in View(slots[..])
      ensures r.Hit? ==> r.value == View(slots[..])[k]
      ensures r.EmptySlot? <==> Slot(k) < MAX_UES && slots[Slot(k)].None?
    {
      LookupIsMapLookup(slots[..], k);
      if Slot(k) >= slots.Length {
        return OutOfRange;
      }
      match slots[Slot(k)]
      case None => r := EmptySlot;
      case Some(e) => r := if e.key == k then Hit(e.value) else OtherKey;
    }
  }
}
