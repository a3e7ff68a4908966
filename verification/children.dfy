/** The table of connected children: two arrays that move in lockstep. */
module Children {
  import opened Types

  /** Both arrays in full, stale slots included; the first `size` slots are in use. */
  datatype Kids = Kids(macs: seq<Mac>, ids: seq<ModuleId>, size: nat) {
    predicate InBounds() {
      size <= |macs| == |ids|
    }

    function Macs(): seq<Mac>
      requires InBounds()
    {
      macs[..size]
    }

    /** What every operation keeps: an address is listed at most once. */
    predicate Valid() {
      && InBounds()
      && (forall i, j :: 0 <= i < j < size ==> macs[i] != macs[j])
    }
  }

  function FirstByMac(s: seq<Mac>, mac: Mac): (k: int)
    ensures -1 <= k < |s|
    ensures k >= 0 ==> s[k] == mac
    ensures k < 0 ==> mac !in s
    ensures forall j :: 0 <= j < k ==> s[j] != mac
  {
    if s == [] then -1
    else if s[0] == mac then 0
    else
      var k := FirstByMac(s[1..], mac);
      if k < 0 then -1 else k + 1
  }

  /** A new child takes the first free slot and, until it advertises, the id left there. */
  function PushChild(t: Kids, mac: Mac): (r: (Kids, int))
    requires t.InBounds()
  {
    var k := FirstByMac(t.Macs(), mac);
    if k >= 0 then (t, k)
    else if t.size < |t.macs| then (t.(macs := t.macs[t.size := mac], size := t.size + 1), t.size)
    else (t, -1)
  }

  function SetChildId(t: Kids, mac: Mac, id: ModuleId): (r: Kids)
    requires t.InBounds()
    ensures r.InBounds() && r.Macs() == t.Macs() && |r.macs| == |t.macs|
  {
    var k := FirstByMac(t.Macs(), mac);
    if k >= 0 then t.(ids := t.ids[k := id]) else t
  }

  /** An address that is not listed is no child. */
  predicate IsChild(t: Kids, mac: Mac, id: ModuleId)
    requires t.InBounds()
  {
    var k := FirstByMac(t.Macs(), mac);
    k >= 0 && t.ids[k] == id
  }

  function PopChild(t: Kids, mac: Mac): (r: Kids)
    requires t.InBounds()
  {
    var k := FirstByMac(t.Macs(), mac);
    if k >= 0 then
      Kids(ShiftLeft(t.macs, k, t.size), ShiftLeft(t.ids, k, t.size), t.size - 1)
    else t
  }

  // ---------------------------------------------------------------- what the operations keep

  lemma PushChildKeeps(t: Kids, mac: Mac)
    requires t.Valid()
    ensures var (t', k) := PushChild(t, mac);
            && t'.Valid() && |t'.macs| == |t.macs| && t'.ids == t.ids
            && (k == -1 <==> mac !in t.Macs() && t.size == |t.macs|)
            && (k != -1 ==> 0 <= k < t'.size && t'.macs[k] == mac)
            && t'.Macs() == (if mac in t.Macs() || k < 0 then t.Macs() else t.Macs() + [mac])
            && (forall m, x :: m in t.Macs() ==> (IsChild(t', m, x) <==> IsChild(t, m, x)))
  {
    var (t', k) := PushChild(t, mac);
    if t' != t {
      assert t'.Macs() == t.Macs() + [mac];
      forall m, x | m in t.Macs()
        ensures IsChild(t', m, x) <==> IsChild(t, m, x)
      {
        var a, b := FirstByMac(t.Macs(), m), FirstByMac(t'.Macs(), m);
        assert t'.Macs()[a] == m;
      }
    }
  }

  /** Setting the id of one listed child fixes it exactly and moves no other. */
  lemma SetChildIdKeeps(t: Kids, mac: Mac, id: ModuleId)
    requires t.Valid()
    ensures SetChildId(t, mac, id).Valid()
    ensures forall m, x :: IsChild(SetChildId(t, mac, id), m, x)
              <==> if m == mac && mac in t.Macs() then x == id else IsChild(t, m, x)
  {
    var t' := SetChildId(t, mac, id);
    forall m, x
      ensures IsChild(t', m, x) <==> if m == mac && mac in t.Macs() then x == id else IsChild(t, m, x)
    {
      var a, b := FirstByMac(t.Macs(), m), FirstByMac(t'.Macs(), m);
      assert a == b;
    }
  }

  lemma ListedAt(t: Kids, i: nat)
    requires t.Valid() && i < t.size
    ensures FirstByMac(t.Macs(), t.macs[i]) == i
  {
    assert t.Macs()[i] == t.macs[i];
  }

  /** Deletion moves both arrays in lockstep and keeps the order of the rest. */
  lemma PopChildShifts(t: Kids, mac: Mac)
    requires t.Valid() && mac in t.Macs()
    ensures var k := FirstByMac(t.Macs(), mac);
            PopChild(t, mac).Valid() && PopChild(t, mac).Macs() == t.Macs()[..k] + t.Macs()[k + 1..]
  {
    ShiftLeftLive(t.macs, FirstByMac(t.Macs(), mac), t.size);
  }

  lemma PopChildOne(t: Kids, mac: Mac, m: Mac)
    requires t.Valid() && mac in t.Macs() && PopChild(t, mac).Valid()
    ensures m in PopChild(t, mac).Macs() <==> m in t.Macs() && m != mac
    ensures forall x :: IsChild(PopChild(t, mac), m, x) <==> m != mac && IsChild(t, m, x)
  {
    var t' := PopChild(t, mac);
    var k, i, j := FirstByMac(t.Macs(), mac), FirstByMac(t.Macs(), m), FirstByMac(t'.Macs(), m);
    if i >= 0 && i != k {
      ListedAt(t', if i < k then i else i - 1);
    }
    if j >= 0 {
      ListedAt(t, if j < k then j else j + 1);
    }
  }

  lemma PopChildKeeps(t: Kids, mac: Mac)
    requires t.Valid()
    ensures PopChild(t, mac).Valid() && |PopChild(t, mac).macs| == |t.macs|
    ensures forall m :: m in PopChild(t, mac).Macs() <==> m in t.Macs() && m != mac
    ensures forall m, x :: IsChild(PopChild(t, mac), m, x) <==> m != mac && IsChild(t, m, x)
    ensures forall x :: x in PopChild(t, mac).ids ==> x in t.ids
  {
    if mac in t.Macs() {
      PopChildShifts(t, mac);
      ShiftLeftLive(t.ids, FirstByMac(t.Macs(), mac), t.size);
      forall m, x
        ensures m in PopChild(t, mac).Macs() <==> m in t.Macs() && m != mac
        ensures IsChild(PopChild(t, mac), m, x) <==> m != mac && IsChild(t, m, x)
      {
        PopChildOne(t, mac, m);
      }
    }
  }

  // ---------------------------------------------------------------- runs

  datatype Change =
    | Joined(mac: Mac)
    | Advertised(mac: Mac, id: ModuleId)
    | Left(mac: Mac)

  function Apply(t: Kids, c: Change): (r: Kids)
    requires t.Valid()
    ensures r.Valid()
  {
    PushChildKeeps(t, c.mac);
    PopChildKeeps(t, c.mac);
    match c
    case Joined(mac) => PushChild(t, mac).0
    case Advertised(mac, id) =>
      SetChildIdKeeps(t, mac, id);
      SetChildId(t, mac, id)
    case Left(mac) => PopChild(t, mac)
  }

  function ApplyAll(t: Kids, cs: seq<Change>): (r: Kids)
    requires t.Valid()
    ensures r.Valid()
    decreases |cs|
  {
    if cs == [] then t else ApplyAll(Apply(t, cs[0]), cs[1..])
  }

  /** The table without its arrays: the children in order of arrival. */
  datatype Roll = Roll(order: seq<Mac>, id: map<Mac, ModuleId>)

  function RollOf(t: Kids): Roll
    requires t.Valid()
  {
    Roll(t.Macs(), map m | m in t.Macs() :: t.ids[FirstByMac(t.Macs(), m)])
  }

  function Without<T(==)>(s: seq<T>, x: T): seq<T> {
    if s == [] then [] else if s[0] == x then s[1..] else [s[0]] + Without(s[1..], x)
  }

  lemma {:induction false} WithoutFirst(s: seq<Mac>, mac: Mac)
    ensures var k := FirstByMac(s, mac);
            Without(s, mac) == if k < 0 then s else s[..k] + s[k + 1..]
  {
    if s != [] && s[0] != mac {
      WithoutFirst(s[1..], mac);
    }
  }

  /** The ordered map after one change; `leftover` is the id a newcomer finds in its slot. */
  function ApplyRoll(r: Roll, c: Change, capacity: nat, leftover: ModuleId): Roll {
    match c
    case Joined(mac) =>
      if mac in r.order || |r.order| >= capacity then r
      else Roll(r.order + [mac], r.id[mac := leftover])
    case Advertised(mac, id) => if mac in r.order then r.(id := r.id[mac := id]) else r
    case Left(mac) => Roll(Without(r.order, mac), r.id - {mac})
  }

  lemma RollIsChild(t: Kids)
    requires t.Valid()
    ensures forall m, x :: IsChild(t, m, x) <==> m in RollOf(t).id && RollOf(t).id[m] == x
  {
  }

  /** A table answers the same questions as a roll. */
  ghost predicate Answers(t: Kids, r: Roll)
    requires t.Valid()
  {
    && t.Macs() == r.order
    && (forall m :: m in r.order <==> m in r.id)
    && (forall m, x :: IsChild(t, m, x) <==> m in r.id && r.id[m] == x)
  }

  lemma AnswersRoll(t: Kids, r: Roll)
    requires t.Valid() && Answers(t, r)
    ensures r == RollOf(t)
  {
    forall m | m in r.id
      ensures m in RollOf(t).id && RollOf(t).id[m] == r.id[m]
    {
      assert IsChild(t, m, r.id[m]);
    }
  }

  lemma NewcomerAt(t: Kids, mac: Mac)
    requires t.Valid() && mac !in t.Macs() && t.size < |t.macs|
    ensures var t' := PushChild(t, mac).0;
            t'.Valid() && forall m, x :: m !in t.Macs() ==> (IsChild(t', m, x) <==> m == mac && x == t.ids[t.size])
  {
    PushChildKeeps(t, mac);
    ListedAt(PushChild(t, mac).0, t.size);
  }

  lemma JoinRefines(t: Kids, mac: Mac)
    requires t.Valid()
    ensures Answers(Apply(t, Joined(mac)),
                    ApplyRoll(RollOf(t), Joined(mac), |t.macs|, if t.size < |t.ids| then t.ids[t.size] else 0))
  {
    RollIsChild(t);
    PushChildKeeps(t, mac);
    var t' := Apply(t, Joined(mac));
    if mac !in t.Macs() && t.size < |t.macs| {
      NewcomerAt(t, mac);
      hide IsChild, PushChild;
    }
  }

  lemma AdvertiseRefines(t: Kids, mac: Mac, id: ModuleId)
    requires t.Valid()
    ensures Answers(Apply(t, Advertised(mac, id)), ApplyRoll(RollOf(t), Advertised(mac, id), |t.macs|, 0))
  {
    RollIsChild(t);
    SetChildIdKeeps(t, mac, id);
  }

  lemma LeaveRefines(t: Kids, mac: Mac)
    requires t.Valid()
    ensures Answers(Apply(t, Left(mac)), ApplyRoll(RollOf(t), Left(mac), |t.macs|, 0))
  {
    RollIsChild(t);
    PopChildKeeps(t, mac);
    WithoutFirst(t.Macs(), mac);
    if mac in t.Macs() {
      PopChildShifts(t, mac);
    }
  }

  /** The two arrays refine the ordered map, change by change. */
  lemma ApplyRefines(t: Kids, c: Change)
    requires t.Valid()
    ensures RollOf(Apply(t, c))
         == ApplyRoll(RollOf(t), c, |t.macs|, if t.size < |t.ids| then t.ids[t.size] else 0)
  {
    var r := ApplyRoll(RollOf(t), c, |t.macs|, if t.size < |t.ids| then t.ids[t.size] else 0);
    match c {
      case Joined(mac) => JoinRefines(t, mac);
      case Advertised(mac, id) => AdvertiseRefines(t, mac, id);
      case Left(mac) => LeaveRefines(t, mac);
    }
    AnswersRoll(Apply(t, c), r);
  }

  /**
   * Once a child's advertisement is in, the table answers for exactly that id
   * through any changes that are not that child's own advertisement or departure.
   */
  lemma {:induction false} AdvertisedIdStays(t: Kids, mac: Mac, id: ModuleId, cs: seq<Change>)
    requires t.Valid() && IsChild(t, mac, id)
    requires forall i :: 0 <= i < |cs| && cs[i].mac == mac ==> cs[i].Joined?
    ensures forall x :: IsChild(ApplyAll(t, cs), mac, x) <==> x == id
    decreases |cs|
  {
    if cs != [] {
      var c := cs[0];
      PushChildKeeps(t, c.mac);
      PopChildKeeps(t, c.mac);
      if c.Advertised? {
        SetChildIdKeeps(t, mac, id);
        SetChildIdKeeps(t, c.mac, c.id);
      }
      AdvertisedIdStays(Apply(t, c), mac, id, cs[1..]);
    }
  }

  /** A newcomer that has not advertised passes for the module whose id its slot still holds. */
  lemma NewcomerInheritsId(t: Kids, mac: Mac)
    requires t.Valid() && mac !in t.Macs() && t.size < |t.macs|
    ensures forall x :: IsChild(Apply(t, Joined(mac)), mac, x) <==> x == t.ids[t.size]
  {
    ApplyRefines(t, Joined(mac));
    RollIsChild(Apply(t, Joined(mac)));
  }

  /** Such a run exists: a child leaves, another takes its slot and passes for it. */
  lemma StaleIdRun(first: Mac, second: Mac, id: ModuleId) returns (cs: seq<Change>)
    requires first != second
    ensures forall c :: c in cs && c.mac == second ==> c == Joined(second)
    ensures IsChild(ApplyAll(Kids([NO_MAC], [0], 0), cs), second, id)
  {
    var t := Kids([NO_MAC], [0], 0);
    cs := [Joined(first), Advertised(first, id), Left(first), Joined(second)];
    var t1 := Apply(t, cs[0]);
    assert t1 == Kids([first], [0], 1);
    var t2 := Apply(t1, cs[1]);
    assert t2 == Kids([first], [id], 1);
    var t3 := Apply(t2, cs[2]);
    assert t3 == Kids([first], [id], 0);
    var t4 := Apply(t3, cs[3]);
    assert t4 == Kids([second], [id], 1);
    assert cs[1..][0] == cs[1] && cs[1..][1..] == cs[2..];
    assert cs[2..][0] == cs[2] && cs[2..][1..] == cs[3..];
    assert cs[3..][0] == cs[3] && cs[3..][1..] == [];
    assert ApplyAll(t3, cs[3..]) == t4;
    assert ApplyAll(t2, cs[2..]) == t4;
    assert ApplyAll(t1, cs[1..]) == t4;
    assert ApplyAll(t, cs) == t4;
  }
}
