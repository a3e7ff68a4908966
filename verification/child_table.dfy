/** The children table of mesh_main.c as the program runs it: two arrays updated in place. */
module ChildStore {
  import opened Types
  import opened Children

  /** 0 when the addresses agree, -1 otherwise, as the source reports it. */
  method SameAddress(a: Mac, b: Mac) returns (r: int)
    ensures r == 0 || r == -1
    ensures r == 0 <==> a == b
  {
    for i := 0 to 6
      invariant a[..i] == b[..i]
    {
      if a[i] != b[i] {
        return -1;
      }
    }
    assert a == a[..6] && b == b[..6];
    return 0;
  }

  class ChildTable {
    const macs: array<Mac>
    const ids: array<ModuleId>
    var size: nat

    function View(): Kids
      reads this, macs, ids
    {
      Kids(macs[..], ids[..], size)
    }

    ghost predicate Valid()
      reads this, macs, ids
    {
      View().Valid()
    }

    constructor (capacity: nat)
      requires 1 <= capacity <= 255
      ensures Valid() && fresh(macs) && fresh(ids)
      ensures View() == Kids(seq(capacity, _ => NO_MAC), seq(capacity, _ => 0), 0)
    {
      macs := new Mac[capacity](_ => NO_MAC);
      ids := new ModuleId[capacity](_ => 0);
      size := 0;
    }

    method GetChildIndexByMac(mac: Mac) returns (index: int)
      requires Valid()
      ensures index == FirstByMac(View().Macs(), mac)
    {
      index := -1;
      var i := 0;
      while i < size
        invariant 0 <= i <= size
        invariant index == -1
        invariant forall j :: 0 <= j < i ==> macs[j] != mac
      {
        var same := SameAddress(mac, macs[i]);
        if same == 0 {
          index := i;
          break;
        }
        i := i + 1;
      }
      assert View().Macs() == macs[..size];
    }

    method Push(mac: Mac) returns (index: int)
      requires Valid()
      modifies this`size, macs
      ensures Valid()
      ensures (View(), index) == PushChild(old(View()), mac)
    {
      PushChildKeeps(View(), mac);
      index := GetChildIndexByMac(mac);
      if index == -1 {
        if size < macs.Length {
          index := size;
          macs[index] := mac;
          size := size + 1;
        }
      }
    }

    method SetId(mac: Mac, id: ModuleId) returns (index: int)
      requires Valid()
      modifies ids
      ensures Valid()
      ensures index == FirstByMac(old(View()).Macs(), mac)
      ensures View() == SetChildId(old(View()), mac, id)
    {
      index := GetChildIndexByMac(mac);
      if index != -1 {
        ids[index] := id;
      }
    }

    method Matches(mac: Mac, id: ModuleId) returns (r: bool)
      requires Valid()
      ensures r <==> IsChild(View(), mac, id)
    {
      var index := GetChildIndexByMac(mac);
      r := index >= 0 && ids[index] == id;
    }

    /** The two shift-left assignments of a deletion, slot by slot. */
    method ShiftFrom(index: nat)
      requires index <= size < macs.Length == ids.Length
      modifies macs, ids
      ensures macs[..] == ShiftLeft(old(macs[..]), index, size + 1)
      ensures ids[..] == ShiftLeft(old(ids[..]), index, size + 1)
    {
      ghost var wasMacs, wasIds := macs[..], ids[..];
      var i := index;
      while i < size
        invariant index <= i <= size
        invariant forall j :: index <= j < i ==> macs[j] == wasMacs[j + 1] && ids[j] == wasIds[j + 1]
        invariant forall j :: 0 <= j < index || i <= j < macs.Length ==>
                    macs[j] == wasMacs[j] && ids[j] == wasIds[j]
      {
        macs[i] := macs[i + 1];
        ids[i] := ids[i + 1];
        i := i + 1;
      }
    }

    method Pop(mac: Mac) returns (index: int)
      requires Valid()
      modifies this`size, macs, ids
      ensures Valid()
      ensures index == FirstByMac(old(View()).Macs(), mac)
      ensures View() == PopChild(old(View()), mac)
    {
      hide ShiftLeft, IsChild;
      PopChildKeeps(View(), mac);
      index := GetChildIndexByMac(mac);
      if index != -1 {
        size := size - 1;
        ShiftFrom(index);
      }
    }
  }
}
