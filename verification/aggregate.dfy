/** The running-sum table of firmware/main/ms_aggregate.c. */
module Aggregate {
  import opened Types
  import opened Samples

  /** One slot. `mac` is written only by an association and survives when the slot is reused. */
  datatype Entry = Entry(id: ModuleId, mac: Mac, start: Instant, steps: nat, sums: Sample)

  /** The whole slot array, stale slots included; the first `size` slots are in use. */
  datatype Table = Table(slots: seq<Entry>, size: nat) {
    predicate InBounds() {
      size <= |slots|
    }

    function Live(): seq<Entry>
      requires InBounds()
    {
      slots[..size]
    }

    /** What every operation keeps: ids are unique and every entry holds a sample. */
    predicate Valid() {
      && InBounds()
      && UniqueIds(Live())
      && (forall i :: 0 <= i < size ==> slots[i].steps >= 1)
    }
  }

  /** What a drain hands over for one entry. */
  datatype Report = Report(id: ModuleId, means: Sample, delta: real, steps: nat)

  const BLANK: Entry := Entry(0, NO_MAC, Instant(0, 0), 0, ZERO)

  predicate UniqueIds(s: seq<Entry>) {
    forall i, j :: 0 <= i < j < |s| ==> s[i].id != s[j].id
  }

  predicate Has(s: seq<Entry>, id: ModuleId) {
    exists i :: 0 <= i < |s| && s[i].id == id
  }

  /** Both lookups scan the whole table and keep the last hit. */
  function LastById(s: seq<Entry>, id: ModuleId): (k: int)
    ensures -1 <= k < |s|
    ensures k >= 0 ==> s[k].id == id
    ensures forall j :: k < j < |s| ==> s[j].id != id
  {
    if s == [] then -1
    else if s[|s| - 1].id == id then |s| - 1
    else LastById(s[..|s| - 1], id)
  }

  function LastByMac(s: seq<Entry>, mac: Mac): (k: int)
    ensures -1 <= k < |s|
    ensures k >= 0 ==> s[k].mac == mac
    ensures forall j :: k < j < |s| ==> s[j].mac != mac
  {
    if s == [] then -1
    else if s[|s| - 1].mac == mac then |s| - 1
    else LastByMac(s[..|s| - 1], mac)
  }

  function Plus(a: Sample, b: Sample): (r: Sample)
    ensures forall c :: 0 <= c < CHANNELS ==> r[c] == a[c] + b[c]
  {
    seq(CHANNELS, c requires 0 <= c < CHANNELS => a[c] + b[c])
  }

  function Averages(e: Entry): (r: Sample)
    requires e.steps >= 1
    ensures forall c :: 0 <= c < CHANNELS ==> r[c] == e.sums[c] / e.steps as real
  {
    seq(CHANNELS, c requires 0 <= c < CHANNELS => e.sums[c] / e.steps as real)
  }

  function ReportOf(e: Entry, now: Instant): Report
    requires e.steps >= 1
  {
    Report(e.id, Averages(e), Elapsed(e.start, now), e.steps)
  }

  /** The table after a sample of module `id`, and the slot used (-1: the table is full). */
  function Push(t: Table, id: ModuleId, x: Sample, now: Instant): (r: (Table, int))
    requires t.InBounds()
  {
    var k := LastById(t.Live(), id);
    if k >= 0 then
      var e := t.slots[k];
      (t.(slots := t.slots[k := e.(steps := e.steps + 1, sums := Plus(e.sums, x))]), k)
    else if t.size < |t.slots| then
      (Table(t.slots[t.size := Entry(id, t.slots[t.size].mac, now, 1, x)], t.size + 1), t.size)
    else
      (t, -1)
  }

  /** Deletion by shifting left; the vacated slot keeps its old bytes. */
  function PopAt(t: Table, k: nat): (r: Table)
    requires t.InBounds() && k < t.size
    ensures r.InBounds() && |r.slots| == |t.slots| && r.size == t.size - 1
    ensures r.Live() == t.Live()[..k] + t.Live()[k + 1..]
  {
    ShiftLeftLive(t.slots, k, t.size);
    Table(ShiftLeft(t.slots, k, t.size), t.size - 1)
  }

  function Associate(t: Table, id: ModuleId, mac: Mac): (r: Table)
    requires t.InBounds()
  {
    var k := LastById(t.Live(), id);
    if k >= 0 then t.(slots := t.slots[k := t.slots[k].(mac := mac)]) else t
  }

  /** The reports of a drain: last entry first, each at its own reading of the clock. */
  function Drain(s: seq<Entry>, clock: Clock): (r: seq<Report>)
    requires forall i :: 0 <= i < |s| ==> s[i].steps >= 1
  {
    if s == [] then [] else [ReportOf(s[|s| - 1], ReadAt(clock, |s| - 1))] + Drain(s[..|s| - 1], clock)
  }

  /** The fields of the reports of a drain, in reverse table order and each exactly once. */
  lemma {:induction false} DrainAt(s: seq<Entry>, clock: Clock)
    requires forall i :: 0 <= i < |s| ==> s[i].steps >= 1
    ensures |Drain(s, clock)| == |s|
    ensures forall i :: 0 <= i < |s| ==>
              Drain(s, clock)[i] == ReportOf(s[|s| - 1 - i], ReadAt(clock, |s| - 1 - i))
  {
    if s != [] {
      var rest := s[..|s| - 1];
      DrainAt(rest, clock);
      forall i | 0 <= i < |s|
        ensures Drain(s, clock)[i] == ReportOf(s[|s| - 1 - i], ReadAt(clock, |s| - 1 - i))
      {
        if i > 0 {
          assert Drain(s, clock)[i] == Drain(rest, clock)[i - 1];
        }
      }
    }
  }

  lemma PopIsShift(t: Table, k: nat)
    requires t.InBounds() && k < t.size
    ensures PopAt(t, k) == Table(ShiftLeft(t.slots, k, t.size), t.size - 1)
  {
  }

  /** A report: sums over steps, and the seconds from the entry's start to the reading of the clock. */
  lemma ReportSays(e: Entry, now: Instant)
    requires e.steps >= 1
    ensures var r := ReportOf(e, now);
            && r.id == e.id && r.steps == e.steps
            && (forall c :: 0 <= c < CHANNELS ==> r.means[c] * e.steps as real == e.sums[c])
            && e.start.sec as real + e.start.usec as real / 1000000.0 + r.delta
               == now.sec as real + now.usec as real / 1000000.0
  {
    forall c | 0 <= c < CHANNELS
      ensures ReportOf(e, now).means[c] * e.steps as real == e.sums[c]
    {
      DivideBack(e.sums[c], e.steps);
    }
  }

  /** With a fresh reading for each entry, every report spans to its own entry's reading. */
  lemma {:induction false} DrainSpans(s: seq<Entry>, at: seq<Instant>, k: nat)
    requires k < |s| <= |at| && forall i :: 0 <= i < |s| ==> s[i].steps >= 1
    ensures |Drain(s, Running(at))| == |s|
    ensures var r := Drain(s, Running(at))[|s| - 1 - k];
            && r.id == s[k].id && r.steps == s[k].steps
            && s[k].start.sec as real + s[k].start.usec as real / 1000000.0 + r.delta
               == at[k].sec as real + at[k].usec as real / 1000000.0
  {
    DrainAt(s, Running(at));
    ReportSays(s[k], at[k]);
  }

  /** Popping the last entry leaves every slot as it was. */
  lemma PopLast(t: Table)
    requires t.InBounds() && t.size > 0
    ensures PopAt(t, t.size - 1) == Table(t.slots, t.size - 1)
  {
    assert ShiftLeft(t.slots, t.size - 1, t.size) == t.slots;
  }

  lemma PushValid(t: Table, id: ModuleId, x: Sample, now: Instant)
    requires t.Valid()
    ensures var (t', k) := Push(t, id, x, now);
            && t'.Valid() && |t'.slots| == |t.slots|
            && (k == -1 <==> !Has(t.Live(), id) && t.size == |t.slots|)
            && (k >= 0 ==> k < t'.size && t'.slots[k].id == id)
            && (forall m :: Has(t'.Live(), m) <==> Has(t.Live(), m) || (k >= 0 && m == id))
  {
    var (t', k) := Push(t, id, x, now);
    var a, b := t.Live(), t'.Live();
    if k >= 0 {
      assert b[k].id == id;
      forall m ensures Has(b, m) <==> Has(a, m) || m == id {
        if Has(a, m) {
          var i :| 0 <= i < |a| && a[i].id == m;
          assert b[i].id == m;
        }
        if Has(b, m) {
          var i :| 0 <= i < |b| && b[i].id == m;
          if i < |a| {
            assert a[i].id == m;
          }
        }
      }
    }
  }

  lemma PopValid(t: Table, k: nat)
    requires t.Valid() && k < t.size
    ensures PopAt(t, k).Valid()
    ensures forall m :: Has(PopAt(t, k).Live(), m) <==> Has(t.Live(), m) && m != t.slots[k].id
  {
    hide ShiftLeft;
    var a, b := t.Live(), PopAt(t, k).Live();
    assert forall i :: 0 <= i < |b| ==> b[i] == a[if i < k then i else i + 1];
    forall m ensures Has(b, m) <==> Has(a, m) && m != a[k].id {
      if Has(a, m) && m != a[k].id {
        var i :| 0 <= i < |a| && a[i].id == m;
        assert b[if i < k then i else i - 1].id == m;
      }
      if Has(b, m) {
        var i :| 0 <= i < |b| && b[i].id == m;
        assert a[if i < k then i else i + 1].id == m;
      }
    }
    assert forall i :: 0 <= i < |b| ==> PopAt(t, k).slots[i] == b[i];
  }

  lemma AssociateLive(t: Table, id: ModuleId, mac: Mac)
    requires t.Valid()
    ensures var t' := Associate(t, id, mac);
            && t'.Valid() && t'.size == t.size && |t'.slots| == |t.slots|
            && (forall i :: 0 <= i < t.size ==>
                  t'.slots[i] == if t.slots[i].id == id then t.slots[i].(mac := mac) else t.slots[i])
            && (forall m :: Has(t'.Live(), m) <==> Has(t.Live(), m))
  {
    var t' := Associate(t, id, mac);
    var k := LastById(t.Live(), id);
    if k >= 0 {
      forall i | 0 <= i < t.size
        ensures t'.slots[i] == if t.slots[i].id == id then t.slots[i].(mac := mac) else t.slots[i]
      {
        assert t.Live()[i].id == id <==> i == k;
      }
    }
    assert forall i :: 0 <= i < t.size ==> t'.Live()[i].id == t.Live()[i].id;
    forall m ensures Has(t'.Live(), m) <==> Has(t.Live(), m) {
      if Has(t.Live(), m) {
        var i :| 0 <= i < t.size && t.Live()[i].id == m;
        assert t'.Live()[i].id == m;
      }
    }
  }

  // ---------------------------------------------------------------- draining by id

  /** Draining through `aggregate_sensors`, one requested id after another. */
  function DrainByIds(t: Table, ids: seq<ModuleId>, now: Instant): (r: (Table, seq<Report>))
    requires t.Valid()
    decreases |ids|
  {
    if ids == [] then (t, [])
    else
      var k := LastById(t.Live(), ids[0]);
      if k < 0 then DrainByIds(t, ids[1..], now)
      else
        PopValid(t, k);
        var (t', rs) := DrainByIds(PopAt(t, k), ids[1..], now);
        (t', [ReportOf(t.slots[k], now)] + rs)
  }

  function IdsOf(s: seq<Entry>): (r: seq<ModuleId>)
    ensures |r| == |s| && forall i :: 0 <= i < |s| ==> r[i] == s[i].id
  {
    seq(|s|, i requires 0 <= i < |s| => s[i].id)
  }

  function ReportsOf(s: seq<Entry>, now: Instant): (r: seq<Report>)
    requires forall i :: 0 <= i < |s| ==> s[i].steps >= 1
    ensures |r| == |s| && forall i :: 0 <= i < |s| ==> r[i] == ReportOf(s[i], now)
  {
    seq(|s|, i requires 0 <= i < |s| => ReportOf(s[i], now))
  }

  lemma RemoveAt<T>(s: seq<T>, k: nat)
    requires k < |s|
    ensures multiset(s) == multiset(s[..k] + s[k + 1..]) + multiset{s[k]}
  {
    assert s == s[..k] + [s[k]] + s[k + 1..];
  }

  lemma DrainLast(s: seq<Entry>, clock: Clock)
    requires s != [] && forall i :: 0 <= i < |s| ==> s[i].steps >= 1
    ensures Drain(s, clock) == [ReportOf(s[|s| - 1], ReadAt(clock, |s| - 1))] + Drain(s[..|s| - 1], clock)
  {
  }

  lemma NoReports(now: Instant)
    ensures Drain([], Stopped(now)) == [] && ReportsOf([], now) == []
  {
  }

  lemma {:induction false} DrainReports(s: seq<Entry>, now: Instant)
    requires forall i :: 0 <= i < |s| ==> s[i].steps >= 1
    ensures multiset(Drain(s, Stopped(now))) == multiset(ReportsOf(s, now))
  {
    hide Drain, ReportOf;
    if s == [] {
      NoReports(now);
    } else {
      var n := |s| - 1;
      DrainReports(s[..n], now);
      DrainLast(s, Stopped(now));
      assert ReportsOf(s, now) == ReportsOf(s[..n], now) + [ReportOf(s[n], now)];
    }
  }

  lemma PopIds(t: Table, k: nat)
    requires t.Valid() && k < t.size
    ensures multiset(IdsOf(t.Live())) == multiset(IdsOf(PopAt(t, k).Live())) + multiset{t.slots[k].id}
  {
    var ids := IdsOf(t.Live());
    assert IdsOf(PopAt(t, k).Live()) == ids[..k] + ids[k + 1..];
    RemoveAt(ids, k);
  }

  lemma PopReports(t: Table, k: nat, now: Instant)
    requires t.Valid() && k < t.size && PopAt(t, k).Valid()
    ensures multiset(ReportsOf(t.Live(), now))
         == multiset(ReportsOf(PopAt(t, k).Live(), now)) + multiset{ReportOf(t.slots[k], now)}
  {
    var rs := ReportsOf(t.Live(), now);
    assert ReportsOf(PopAt(t, k).Live(), now) == rs[..k] + rs[k + 1..];
    RemoveAt(rs, k);
  }

  lemma ListedIsFound(s: seq<Entry>, ids: seq<ModuleId>)
    requires ids != [] && multiset(ids) == multiset(IdsOf(s))
    ensures LastById(s, ids[0]) >= 0
  {
    assert ids[0] in multiset(ids);
    assert ids[0] in IdsOf(s);
  }

  lemma {:induction false} DrainByIdsReports(t: Table, ids: seq<ModuleId>, now: Instant)
    requires t.Valid() && multiset(ids) == multiset(IdsOf(t.Live()))
    ensures DrainByIds(t, ids, now).0.size == 0
    ensures multiset(DrainByIds(t, ids, now).1) == multiset(ReportsOf(t.Live(), now))
    decreases |ids|
  {
    assert |ids| == |multiset(ids)| == |IdsOf(t.Live())|;
    if ids != [] {
      ListedIsFound(t.Live(), ids);
      var k := LastById(t.Live(), ids[0]);
      PopValid(t, k);
      assert multiset(ids[1..]) == multiset(IdsOf(PopAt(t, k).Live())) by {
        assert ids == [ids[0]] + ids[1..] && t.slots[k] == t.Live()[k];
        PopIds(t, k);
        assert multiset(ids[1..]) == multiset(ids) - multiset{ids[0]};
      }
      PopReports(t, k, now);
      DrainByIdsReports(PopAt(t, k), ids[1..], now);
    }
  }

  /**
   * Asking for the listed ids in any order empties the table and yields the reports of the
   * last-entry-first drain: as ids are unique, the same report for each id, each exactly once.
   */
  lemma DrainsAgree(t: Table, ids: seq<ModuleId>, now: Instant)
    requires t.Valid() && multiset(ids) == multiset(IdsOf(t.Live()))
    ensures DrainByIds(t, ids, now).0.size == 0
    ensures multiset(DrainByIds(t, ids, now).1) == multiset(Drain(t.Live(), Stopped(now)))
    ensures forall i, j :: 0 <= i < j < |Drain(t.Live(), Stopped(now))|
              ==> Drain(t.Live(), Stopped(now))[i].id != Drain(t.Live(), Stopped(now))[j].id
  {
    DrainByIdsReports(t, ids, now);
    DrainReports(t.Live(), now);
    DrainAt(t.Live(), Stopped(now));
  }
}
