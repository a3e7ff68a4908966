/** The table of ms_aggregate.c as the program runs it: one slot array updated in place. */
module AggregateStore {
  import opened Types
  import opened Samples
  import opened Aggregate

  class AggregateTable {
    const slots: array<Entry>
    var size: nat

    function View(): Table
      reads this, slots
    {
      Table(slots[..], size)
    }

    ghost predicate Valid()
      reads this, slots
    {
      View().Valid()
    }

    constructor (capacity: nat)
      requires 1 <= capacity <= 255
      ensures Valid() && fresh(slots)
      ensures View() == Table(seq(capacity, _ => BLANK), 0)
    {
      slots := new Entry[capacity](_ => BLANK);
      size := 0;
    }

    method PopSensorsIndex(index: int)
      requires Valid() && -1 <= index < size
      modifies this`size, slots
      ensures Valid()
      ensures View() == if index >= 0 then PopAt(old(View()), index) else old(View())
    {
      hide ShiftLeft, PopAt, Has, UniqueIds;
      if index >= 0 {
        PopIsShift(View(), index);
        PopValid(View(), index);
        size := size - 1;
        ShiftFrom(index);
      }
    }

    /** The loop of the deletion, slot by slot. */
    method ShiftFrom(index: nat)
      requires index <= size < slots.Length
      modifies slots
      ensures slots[..] == ShiftLeft(old(slots[..]), index, size + 1)
    {
      ghost var was := slots[..];
      var i: nat := index;
      while i < size
        invariant index <= i <= size
        invariant forall j :: index <= j < i ==> slots[j] == was[j + 1]
        invariant forall j :: 0 <= j < index || i <= j < slots.Length ==> slots[j] == was[j]
      {
        slots[i] := slots[i + 1];
        i := i + 1;
      }
      assert slots[..] == ShiftLeft(was, index, size + 1);
    }

    method GetSensorIndexById(id: ModuleId) returns (index: int)
      requires Valid()
      ensures index == LastById(View().Live(), id)
    {
      index := -1;
      var i := 0;
      while i < size
        invariant 0 <= i <= size
        invariant index == LastById(slots[..i], id)
      {
        assert slots[..i + 1][..i] == slots[..i];
        if slots[i].id == id {
          index := i;
        }
        i := i + 1;
      }
      assert slots[..][..size] == slots[..size];
    }

    method GetSensorIndexByMac(mac: Mac) returns (index: int)
      requires Valid()
      ensures index == LastByMac(View().Live(), mac)
    {
      index := -1;
      var i := 0;
      while i < size
        invariant 0 <= i <= size
        invariant index == LastByMac(slots[..i], mac)
      {
        assert slots[..i + 1][..i] == slots[..i];
        if slots[i].mac == mac {
          index := i;
        }
        i := i + 1;
      }
      assert slots[..][..size] == slots[..size];
    }

    method AddSums(k: nat, x: Sample)
      requires k < slots.Length
      modifies slots
      ensures slots[..] == old(slots[..])[k := old(slots[k]).(sums := Plus(old(slots[k].sums), x))]
    {
      ghost var e := slots[k];
      var i := 0;
      while i < CHANNELS
        invariant 0 <= i <= CHANNELS
        invariant forall j :: 0 <= j < slots.Length && j != k ==> slots[j] == old(slots[j])
        invariant slots[k] == e.(sums := slots[k].sums)
        invariant forall c :: 0 <= c < CHANNELS ==>
                    slots[k].sums[c] == if c < i then e.sums[c] + x[c] else e.sums[c]
      {
        var sums := slots[k].sums;
        slots[k] := slots[k].(sums := sums[i := sums[i] + x[i]]);
        i := i + 1;
      }
      assert slots[k].sums == Plus(e.sums, x);
    }

    method CopySums(k: nat, x: Sample)
      requires k < slots.Length
      modifies slots
      ensures slots[..] == old(slots[..])[k := old(slots[k]).(sums := x)]
    {
      ghost var e := slots[k];
      var i := 0;
      while i < CHANNELS
        invariant 0 <= i <= CHANNELS
        invariant forall j :: 0 <= j < slots.Length && j != k ==> slots[j] == old(slots[j])
        invariant slots[k] == e.(sums := slots[k].sums)
        invariant forall c :: 0 <= c < i ==> slots[k].sums[c] == x[c]
      {
        slots[k] := slots[k].(sums := slots[k].sums[i := x[i]]);
        i := i + 1;
      }
      assert slots[k].sums == x;
    }

    method PushSensors(id: ModuleId, x: Sample, now: Instant) returns (index: int)
      requires Valid()
      modifies this`size, slots
      ensures Valid()
      ensures (View(), index) == Push(old(View()), id, x, now)
    {
      PushValid(View(), id, x, now);
      ghost var was := slots[..];
      index := GetSensorIndexById(id);
      if index >= 0 {
        slots[index] := slots[index].(steps := slots[index].steps + 1);
        AddSums(index, x);
        assert slots[..] == was[index := was[index].(steps := was[index].steps + 1,
                                                     sums := Plus(was[index].sums, x))];
      } else if size < slots.Length {
        index := size;
        slots[size] := slots[size].(id := id, start := now, steps := 1);
        CopySums(size, x);
        assert slots[..] == was[size := Entry(id, was[size].mac, now, 1, x)];
        size := size + 1;
      }
    }

    method Means(k: nat) returns (means: Sample)
      requires k < slots.Length && slots[k].steps >= 1
      ensures means == Averages(slots[k])
    {
      means := ZERO;
      var i := 0;
      while i < CHANNELS
        invariant 0 <= i <= CHANNELS
        invariant forall c :: 0 <= c < i ==> means[c] == slots[k].sums[c] / slots[k].steps as real
      {
        means := means[i := slots[k].sums[i] / slots[k].steps as real];
        i := i + 1;
      }
      assert means == Averages(slots[k]);
    }

    /** The report is meaningful only when the returned index is not -1. */
    method AggregateSensors(id: ModuleId, now: Instant) returns (index: int, report: Report)
      requires Valid()
      modifies this`size, slots
      ensures Valid()
      ensures index == LastById(old(View()).Live(), id)
      ensures index >= 0 ==> && report == ReportOf(old(slots[index]), now)
                             && View() == PopAt(old(View()), index)
      ensures index < 0 ==> View() == old(View())
    {
      report := Report(0, ZERO, 0.0, 0);
      index := GetSensorIndexById(id);
      if index >= 0 {
        var means := Means(index);
        report := Report(id, means, Elapsed(slots[index].start, now), slots[index].steps);
        PopSensorsIndex(index);
      }
    }

    method AggregateLastSensors(now: Instant) returns (index: int, report: Report)
      requires Valid()
      modifies this`size, slots
      ensures Valid()
      ensures index == old(size) - 1
      ensures index >= 0 ==> && report == ReportOf(old(slots[index]), now)
                             && View() == Table(old(View()).slots, index)
      ensures index < 0 ==> View() == old(View())
    {
      report := Report(0, ZERO, 0.0, 0);
      index := size - 1;
      if index >= 0 {
        PopLast(View());
        var means := Means(index);
        report := Report(slots[index].id, means, Elapsed(slots[index].start, now), slots[index].steps);
        PopSensorsIndex(index);
      }
    }

    method PopSensors(id: ModuleId) returns (index: int)
      requires Valid()
      modifies this`size, slots
      ensures Valid()
      ensures index == LastById(old(View()).Live(), id)
      ensures View() == if index >= 0 then PopAt(old(View()), index) else old(View())
    {
      index := GetSensorIndexById(id);
      PopSensorsIndex(index);
    }

    method PopSensorsByMac(mac: Mac) returns (index: int)
      requires Valid()
      modifies this`size, slots
      ensures Valid()
      ensures index == LastByMac(old(View()).Live(), mac)
      ensures View() == if index >= 0 then PopAt(old(View()), index) else old(View())
    {
      index := GetSensorIndexByMac(mac);
      PopSensorsIndex(index);
    }

    method AssociateMac(id: ModuleId, mac: Mac) returns (index: int)
      requires Valid()
      modifies slots
      ensures Valid()
      ensures index == LastById(old(View()).Live(), id)
      ensures View() == Associate(old(View()), id, mac)
    {
      AssociateLive(View(), id, mac);
      index := GetSensorIndexById(id);
      if index >= 0 {
        slots[index] := slots[index].(mac := mac);
      }
    }

    method GetModuleIds() returns (ids: seq<ModuleId>)
      requires Valid()
      ensures ids == IdsOf(View().Live())
    {
      ids := [];
      var i := 0;
      while i < size
        invariant 0 <= i <= size
        invariant |ids| == i && forall j :: 0 <= j < i ==> ids[j] == slots[j].id
      {
        ids := ids + [slots[i].id];
        i := i + 1;
      }
    }
  }
}
