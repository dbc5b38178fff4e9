/** Exclusive USB: the supervisor unbinds the kernel drivers of filtered devices,
    remembers them in a bounded table and binds them back when it stops.  Hotplug,
    other writers of the bus and write failures may come between any two steps: a
    scan reads the vendor, the product and the driver of an interface and writes
    its unbind request at four different times. */
module ExclusiveUsb {
  import opened Options
  import UsbIds

  const MAX_RECORDS: nat := 64
  const MAX_NAME: nat := 128
  const RETRY_MS: nat := 30000

  type DeviceId = UsbIds.DeviceId

  /** An interface on the bus. `id` is None when sysfs did not show it. Two fields are
      bookkeeping: `plug` numbers the plug-ins, and `takenFrom` is the driver this
      supervisor unbound it from, until somebody binds or unbinds it again. */
  datatype Interface = Interface(id: Option<DeviceId>, driver: Option<string>, plug: nat, takenFrom: Option<string>)

  type Bus = map<string, Interface>

  datatype UsbRecord = UsbRecord(name: string, driver: string, detached: bool, failed: bool, retryAfter: int)

  function Blank(name: string): UsbRecord
  {
    UsbRecord(name, "", false, false, 0)
  }

  predicate SafeChar(c: char)
  {
    'a' <= c <= 'z' || 'A' <= c <= 'Z' || '0' <= c <= '9' || c == '-' || c == '_' || c == '.' || c == ':'
  }

  predicate SafeName(name: string)
  {
    0 < |name| < MAX_NAME && forall i :: 0 <= i < |name| ==> SafeChar(name[i])
  }

  /** An interface entry: a colon after a non-empty device name. */
  predicate InterfaceName(name: string)
  {
    SafeName(name) && name[0] != ':' && ':' in name
  }

  predicate Filtered(filter: seq<DeviceId>, i: Interface)
  {
    i.id.Some? && i.id.value in filter
  }

  /** The driver a scan can read: a link with a safe name. */
  function VisibleDriver(i: Interface): Option<string>
  {
    if i.driver.Some? && SafeName(i.driver.value) then i.driver else None
  }

  // ------------------------------------------------------------ specification

  function Find(table: seq<UsbRecord>, name: string): (i: nat)
    ensures i <= |table|
    ensures i < |table| ==> table[i].name == name
    ensures forall j :: 0 <= j < i ==> table[j].name != name
  {
    if table == [] then 0 else if table[0].name == name then 0 else 1 + Find(table[1..], name)
  }

  function Without(table: seq<UsbRecord>, i: nat): seq<UsbRecord>
    requires i < |table|
  {
    table[..i] + table[i + 1..]
  }

  /** Only interfaces that are still on the bus keep their record. */
  function Pruned(table: seq<UsbRecord>, bus: Bus): (r: seq<UsbRecord>)
    ensures |r| <= |table|
  {
    if table == [] then []
    else (if table[0].name in bus then [table[0]] else []) + Pruned(table[1..], bus)
  }

  /** The record a visit works on, created at the end when there is room. */
  function WithRecord(table: seq<UsbRecord>, name: string): seq<UsbRecord>
  {
    if Find(table, name) == |table| && |table| < MAX_RECORDS then table + [Blank(name)] else table
  }

  /** What a scan has read of one directory entry when it comes to the write: the id
      halves may come from different devices. */
  datatype Reading = Reading(vendor: Option<nat>, product: Option<nat>, driver: Option<string>)

  predicate Wanted(filter: seq<DeviceId>, name: string, r: Reading)
  {
    && InterfaceName(name) && r.vendor.Some? && r.product.Some?
    && UsbIds.DeviceId(r.vendor.value, r.product.value) in filter && r.driver.Some?
  }

  /** The kernel unbinds an interface only from the driver it is bound to. */
  predicate Unbinds(bus: Bus, name: string, driver: string, ok: bool)
  {
    ok && name in bus && bus[name].driver == Some(driver)
  }

  /** The end of a visit at time `now`, on the bus of that moment; `ok` says whether the
      kernel goes along with a write it can do. */
  function Visit(table: seq<UsbRecord>, bus: Bus, filter: seq<DeviceId>, name: string, r: Reading, now: nat, ok: bool)
    : (seq<UsbRecord>, Bus)
  {
    if !Wanted(filter, name, r) then (table, bus)
    else
      var more := WithRecord(table, name);
      var i := Find(more, name);
      if i == |more| || more[i].retryAfter > now then (more, bus)
      else
        var driver := r.driver.value;
        if Unbinds(bus, name, driver, ok) then
          (more[i := UsbRecord(name, driver, true, false, 0)],
           bus[name := bus[name].(driver := None, takenFrom := Some(driver))])
        else (more[i := UsbRecord(name, driver, false, true, now + RETRY_MS)], bus)
  }

  /** Binding one record back; `ok` is the result of the bind write. */
  function RestoreOne(r: UsbRecord, bus: Bus, ok: bool): Bus
  {
    if !r.detached || r.name !in bus || VisibleDriver(bus[r.name]).Some? || bus[r.name].driver.Some? || !ok then bus
    else bus[r.name := bus[r.name].(driver := Some(r.driver), takenFrom := None)]
  }

  /** The restore loop: last record first. */
  function RestoreAll(table: seq<UsbRecord>, bus: Bus, oks: seq<bool>): Bus
    requires |oks| == |table|
    decreases |table|
  {
    if table == [] then bus
    else
      var n := |table| - 1;
      RestoreAll(table[..n], RestoreOne(table[n], bus, oks[n]), oks[..n])
  }

  // ---------------------------------------------------------- what a visit does

  ghost predicate UniqueNames(table: seq<UsbRecord>)
  {
    forall i, j :: 0 <= i < j < |table| ==> table[i].name != table[j].name
  }

  ghost predicate Named(table: seq<UsbRecord>, name: string)
  {
    exists r :: r in table && r.name == name
  }

  ghost predicate Delayed(table: seq<UsbRecord>, name: string, now: nat)
  {
    exists r :: r in table && r.name == name && r.retryAfter > now
  }

  /** The visit gets as far as its write: the entry is an interface whose readings the
      filter names, there is a record for it or room for one, and no retry delay runs. */
  ghost predicate Writes(table: seq<UsbRecord>, filter: seq<DeviceId>, name: string, r: Reading, now: nat)
  {
    && 0 < |name| < MAX_NAME && name[0] != ':' && ':' in name && (forall i :: 0 <= i < |name| ==> SafeChar(name[i]))
    && r.vendor.Some? && r.product.Some? && UsbIds.DeviceId(r.vendor.value, r.product.value) in filter && r.driver.Some?
    && (Named(table, name) || |table| < MAX_RECORDS) && !Delayed(table, name, now)
  }

  /** What a visit leaves: exactly one successful write takes the interface, in the filter
      now or not, and marks its record; exactly a failed one sets the retry delay; nothing
      else changes. */
  ghost predicate VisitPromise(table: seq<UsbRecord>, bus: Bus, filter: seq<DeviceId>, name: string, r: Reading, now: nat,
                               ok: bool, after: seq<UsbRecord>, later: Bus)
  {
    && UniqueNames(after) && |after| <= |table| + 1 && (|table| <= MAX_RECORDS ==> |after| <= MAX_RECORDS)
    && (forall e: UsbRecord :: e.name != name ==> (e in after <==> e in table))
    && (if Writes(table, filter, name, r, now) then
          if ok && name in bus && bus[name].driver == r.driver then
            && later == bus[name := bus[name].(driver := None, takenFrom := r.driver)]
            && UsbRecord(name, r.driver.value, true, false, 0) in after
          else
            && later == bus
            && UsbRecord(name, r.driver.value, false, true, now + 30000) in after
        else later == bus && forall e: UsbRecord :: e.name == name && e in after ==> e in table || e == Blank(name))
  }

  lemma FindNamed(table: seq<UsbRecord>, name: string)
    ensures Find(table, name) < |table| <==> Named(table, name)
  {
    if r :| r in table && r.name == name {
      var j :| 0 <= j < |table| && table[j] == r;
    }
  }

  lemma FindOnly(table: seq<UsbRecord>, name: string, r: UsbRecord)
    requires UniqueNames(table) && r in table && r.name == name
    ensures Find(table, name) < |table| && table[Find(table, name)] == r
  {
    var j :| 0 <= j < |table| && table[j] == r;
  }

  lemma ReplacedRecords(table: seq<UsbRecord>, i: nat, r: UsbRecord)
    requires UniqueNames(table) && i < |table| && table[i].name == r.name
    ensures UniqueNames(table[i := r]) && r in table[i := r]
    ensures forall e: UsbRecord :: e.name != r.name ==> (e in table[i := r] <==> e in table)
  {
    var more := table[i := r];
    assert more[i] == r;
    forall e: UsbRecord | e.name != r.name ensures e in more <==> e in table {
      if e in table { var j :| 0 <= j < |table| && table[j] == e; assert more[j] == e; }
      if e in more { var j :| 0 <= j < |more| && more[j] == e; assert table[j] == e; }
    }
  }

  lemma WithRecordMeans(table: seq<UsbRecord>, name: string, now: nat)
    requires UniqueNames(table)
    ensures var more := WithRecord(table, name);
            && UniqueNames(more) && (forall e: UsbRecord :: e.name != name ==> (e in more <==> e in table))
            && (forall e: UsbRecord :: e.name == name && e in more ==> e in table || e == Blank(name))
            && (Find(more, name) < |more| <==> Named(table, name) || |table| < MAX_RECORDS)
            && (Find(more, name) < |more| ==>
                  (more[Find(more, name)].retryAfter > now <==> Delayed(table, name, now)))
            && |more| <= |table| + 1 && (|table| <= MAX_RECORDS ==> |more| <= MAX_RECORDS)
  {
    FindNamed(table, name);
    if Find(table, name) == |table| && |table| < MAX_RECORDS {
      FindAppended(table, name);
    } else if Find(table, name) < |table| {
      forall e | e in table && e.name == name ensures e == table[Find(table, name)] { FindOnly(table, name, e); }
    }
  }

  lemma VisitMeans(table: seq<UsbRecord>, bus: Bus, filter: seq<DeviceId>, name: string, r: Reading, now: nat, ok: bool)
    requires UniqueNames(table)
    ensures VisitPromise(table, bus, filter, name, r, now, ok, Visit(table, bus, filter, name, r, now, ok).0,
                         Visit(table, bus, filter, name, r, now, ok).1)
  {
    WithRecordMeans(table, name, now);
    var more := WithRecord(table, name);
    var i := Find(more, name);
    if Wanted(filter, name, r) && i < |more| {
      ReplacedRecords(more, i, UsbRecord(name, r.driver.value, true, false, 0));
      ReplacedRecords(more, i, UsbRecord(name, r.driver.value, false, true, now + RETRY_MS));
    }
  }

  // ---------------------------------------------------------- the table object

  class UsbTable {
    const records: array<UsbRecord>
    var count: nat

    ghost predicate Valid()
      reads this
    {
      records.Length == MAX_RECORDS && count <= MAX_RECORDS
    }

    ghost function View(): seq<UsbRecord>
      requires Valid()
      reads this, records
    {
      records[..count]
    }

    constructor ()
      ensures Valid() && fresh(records) && View() == []
    {
      records := new UsbRecord[MAX_RECORDS](_ => Blank(""));
      count := 0;
    }

    method FindRecord(name: string) returns (i: nat)
      requires Valid()
      ensures i == Find(View(), name)
    {
      i := 0;
      while i < count
        invariant i <= count
        invariant forall j :: 0 <= j < i ==> records[j].name != name
      {
        if records[i].name == name { break; }
        i := i + 1;
      }
      var found := Find(records[..count], name);
    }

    method RemoveRecord(i: nat)
      requires Valid() && i < count
      modifies this, records
      ensures Valid() && View() == Without(old(View()), i)
    {
      var k := i;
      while k + 1 < count
        invariant i <= k < count <= records.Length
        invariant count == old(count)
        invariant forall j :: 0 <= j < i ==> records[j] == old(records[j])
        invariant forall j :: i <= j < k ==> records[j] == old(records[j + 1])
        invariant forall j :: k < j < count ==> records[j] == old(records[j])
      {
        records[k] := records[k + 1];
        k := k + 1;
      }
      count := count - 1;
      records[count] := Blank("");
    }

    method Prune(bus: Bus)
      requires Valid()
      modifies this, records
      ensures Valid() && View() == Pruned(old(View()), bus)
    {
      ghost var target := Pruned(View(), bus);
      var i := 0;
      assert View()[0..] == View();
      while i < count
        invariant Valid() && i <= count
        invariant View()[..i] + Pruned(View()[i..], bus) == target
        decreases count - i
      {
        ghost var before := View();
        PruneStep(before, i, bus);
        if records[i].name !in bus {
          RemoveRecord(i);
          assert View()[..i] == before[..i] && View()[i..] == before[i + 1..];
        } else {
          i := i + 1;
        }
      }
      assert View()[..i] == View() && Pruned(View()[i..], bus) == [];
    }

    /** The end of one directory entry's visit, given what was read of it. */
    method VisitEntry(bus: Bus, filter: seq<DeviceId>, name: string, r: Reading, now: nat, ok: bool) returns (after: Bus)
      requires Valid()
      modifies this, records
      ensures Valid() && (View(), after) == Visit(old(View()), bus, filter, name, r, now, ok)
      ensures UniqueNames(old(View())) ==>
                VisitPromise(old(View()), bus, filter, name, r, now, ok, View(), after)
    {
      if UniqueNames(View()) { VisitMeans(View(), bus, filter, name, r, now, ok); }
      after := TryVisit(bus, filter, name, r, now, ok);
    }

    method TryVisit(bus: Bus, filter: seq<DeviceId>, name: string, r: Reading, now: nat, ok: bool) returns (after: Bus)
      requires Valid()
      modifies this, records
      ensures Valid() && (View(), after) == Visit(old(View()), bus, filter, name, r, now, ok)
    {
      after := bus;
      if !InterfaceName(name) || r.vendor.None? || r.product.None? { return; }
      if UsbIds.DeviceId(r.vendor.value, r.product.value) !in filter || r.driver.None? { return; }
      var driver := r.driver.value;
      var i := FindRecord(name);
      if i == count {
        if count >= MAX_RECORDS { return; }
        records[count] := Blank(name);
        count := count + 1;
        assert View() == old(View()) + [Blank(name)];
        FindAppended(old(View()), name);
      }
      if records[i].retryAfter > now { return; }
      if Unbinds(bus, name, driver, ok) {
        records[i] := UsbRecord(name, driver, true, false, 0);
        after := bus[name := bus[name].(driver := None, takenFrom := Some(driver))];
      } else {
        records[i] := UsbRecord(name, driver, false, true, now + RETRY_MS);
      }
    }

    method Restore(bus: Bus, oks: seq<bool>) returns (after: Bus)
      requires Valid() && |oks| == count
      modifies this, records
      ensures Valid() && View() == [] && after == RestoreAll(old(View()), bus, oks)
    {
      after := bus;
      var reverse := count;
      ghost var table := View();
      assert table[..count] == table && oks[..count] == oks;
      while reverse > 0
        invariant 0 <= reverse <= count == |table| && Valid()
        invariant records[..count] == table
        invariant RestoreAll(table[..reverse], after, oks[..reverse]) == RestoreAll(table, bus, oks)
      {
        var r := records[reverse - 1];
        ghost var left, flags := table[..reverse], oks[..reverse];
        assert left[reverse - 1] == table[reverse - 1] == r && left[..reverse - 1] == table[..reverse - 1];
        assert flags[reverse - 1] == oks[reverse - 1] && flags[..reverse - 1] == oks[..reverse - 1];
        if r.detached && r.name in after && VisibleDriver(after[r.name]).None? {
          if after[r.name].driver.None? && oks[reverse - 1] {
            after := after[r.name := after[r.name].(driver := Some(r.driver), takenFrom := None)];
          }
        }
        reverse := reverse - 1;
      }
      assert table[..0] == [] && oks[..0] == [];
      count := 0;
      forall k | 0 <= k < records.Length { records[k] := Blank(""); }
    }
  }

  lemma FindAppended(table: seq<UsbRecord>, name: string)
    requires Find(table, name) == |table|
    ensures Find(table + [Blank(name)], name) == |table|
  {
    var k := Find(table + [Blank(name)], name);
    assert (table + [Blank(name)])[|table|].name == name;
  }

  lemma PruneStep(table: seq<UsbRecord>, i: nat, bus: Bus)
    requires i < |table|
    ensures table[..i] + Pruned(table[i..], bus) ==
            (if table[i].name in bus then table[..i + 1] else table[..i]) + Pruned(table[i + 1..], bus)
  {
    assert table[i..][1..] == table[i + 1..];
    assert table[..i + 1] == table[..i] + [table[i]];
  }

  // ------------------------------------------------------------ what runs keep

  /** How far the scan has got with the current entry; `plug` is the plug-in whose
      vendor it read. */
  datatype Cursor =
    | Between
    | VendorRead(name: string, vendor: nat, plug: nat)
    | IdRead(name: string, vendor: nat, product: nat, plug: nat)
    | DriverRead(name: string, vendor: nat, product: nat, driver: string, plug: nat)

  datatype Step =
    | Plug(name: string, id: Option<DeviceId>, driver: Option<string>)
    | Unplug(name: string)
    | OtherBinds(name: string, bound: string)
    | OtherUnbinds(name: string)
    | PruneTable
    | ReadVendor(name: string)
    | ReadProduct
    | ReadDriver
    | WriteUnbind(now: nat, ok: bool)

  datatype State = State(table: seq<UsbRecord>, bus: Bus, cursor: Cursor, plugs: nat)

  /** The readings so far, as the write sees them. */
  function ReadingOf(c: Cursor): Reading
  {
    match c
    case Between => Reading(None, None, None)
    case VendorRead(_, v, _) => Reading(Some(v), None, None)
    case IdRead(_, v, p, _) => Reading(Some(v), Some(p), None)
    case DriverRead(_, v, p, d, _) => Reading(Some(v), Some(p), Some(d))
  }

  function Shown(bus: Bus, name: string): Option<DeviceId>
  {
    if name in bus then bus[name].id else None
  }

  function Apply(s: State, filter: seq<DeviceId>, step: Step): State
  {
    match step
    case Plug(name, id, driver) =>
      if name in s.bus then s
      else s.(bus := s.bus[name := Interface(id, driver, s.plugs, None)], plugs := s.plugs + 1)
    case Unplug(name) => s.(bus := s.bus - {name})
    case OtherBinds(name, driver) =>
      if name in s.bus then s.(bus := s.bus[name := s.bus[name].(driver := Some(driver), takenFrom := None)]) else s
    case OtherUnbinds(name) =>
      if name in s.bus then s.(bus := s.bus[name := s.bus[name].(driver := None, takenFrom := None)]) else s
    case PruneTable => s.(table := Pruned(s.table, s.bus), cursor := Between)
    case ReadVendor(name) =>
      var id := Shown(s.bus, name);
      s.(cursor := if InterfaceName(name) && id.Some? then VendorRead(name, id.value.vendor, s.bus[name].plug) else Between)
    case ReadProduct =>
      if !s.cursor.VendorRead? then s
      else
        var c, id := s.cursor, Shown(s.bus, s.cursor.name);
        s.(cursor := if id.Some? && UsbIds.DeviceId(c.vendor, id.value.product) in filter
                     then IdRead(c.name, c.vendor, id.value.product, c.plug) else Between)
    case ReadDriver =>
      if !s.cursor.IdRead? then s
      else
        var c := s.cursor;
        var driver := if c.name in s.bus then VisibleDriver(s.bus[c.name]) else None;
        s.(cursor := if driver.Some? then DriverRead(c.name, c.vendor, c.product, driver.value, c.plug) else Between)
    case WriteUnbind(now, ok) =>
      if !s.cursor.DriverRead? then s
      else
        var (table, bus) := Visit(s.table, s.bus, filter, s.cursor.name, ReadingOf(s.cursor), now, ok);
        State(table, bus, Between, s.plugs)
  }

  function Run(bus: Bus, filter: seq<DeviceId>, steps: seq<Step>): State
  {
    if steps == [] then State([], bus, Between, 1)
    else Apply(Run(bus, filter, steps[..|steps| - 1]), filter, steps[|steps| - 1])
  }

  /** The supervisor unbound this interface and nobody bound it since. */
  predicate Taken(i: Interface)
  {
    i.takenFrom.Some?
  }

  ghost predicate Recorded(table: seq<UsbRecord>, name: string, driver: string)
  {
    exists i :: 0 <= i < |table| && table[i].name == name && table[i].detached && table[i].driver == driver
  }

  ghost predicate UsbInv(s: State)
  {
    && |s.table| <= MAX_RECORDS && UniqueNames(s.table)
    && forall name :: name in s.bus && Taken(s.bus[name]) ==>
         s.bus[name].driver.None? && Recorded(s.table, name, s.bus[name].takenFrom.value)
  }

  /** The device the cursor read first is still plugged in under its name. */
  predicate SamePlug(s: State)
  {
    !s.cursor.Between? && s.cursor.name in s.bus && s.bus[s.cursor.name].plug == s.cursor.plug
  }

  /** Plug-ins are numbered, and what the cursor read is true of the device it read it
      from for as long as that one stays. */
  ghost predicate CursorInv(s: State, filter: seq<DeviceId>)
  {
    && (forall name :: name in s.bus ==> s.bus[name].plug < s.plugs)
    && (!s.cursor.Between? ==> s.cursor.plug < s.plugs)
    && (s.cursor.VendorRead? && SamePlug(s) ==>
          s.bus[s.cursor.name].id.Some? && s.bus[s.cursor.name].id.value.vendor == s.cursor.vendor)
    && (s.cursor.IdRead? || s.cursor.DriverRead? ==> UsbIds.DeviceId(s.cursor.vendor, s.cursor.product) in filter)
    && ((s.cursor.IdRead? || s.cursor.DriverRead?) && SamePlug(s) ==>
          s.bus[s.cursor.name].id == Some(UsbIds.DeviceId(s.cursor.vendor, s.cursor.product)))
    && (s.cursor.DriverRead? && s.cursor.name in s.bus ==> !Taken(s.bus[s.cursor.name]))
  }

  lemma {:induction false} PrunedKeeps(table: seq<UsbRecord>, bus: Bus)
    requires UniqueNames(table)
    ensures UniqueNames(Pruned(table, bus))
    ensures forall r :: r in Pruned(table, bus) <==> r in table && r.name in bus
  {
    if table != [] {
      var rest := Pruned(table[1..], bus);
      PrunedKeeps(table[1..], bus);
      assert forall r :: r in table <==> r == table[0] || r in table[1..];
      forall i | 0 <= i < |rest|
        ensures rest[i].name != table[0].name
      {
        assert rest[i] in table[1..];
      }
    }
  }

  lemma PruneKeepsInv(s: State, cursor: Cursor)
    requires UsbInv(s)
    ensures UsbInv(s.(table := Pruned(s.table, s.bus), cursor := cursor))
  {
    PrunedKeeps(s.table, s.bus);
    forall name | name in s.bus && Taken(s.bus[name])
      ensures Recorded(Pruned(s.table, s.bus), name, s.bus[name].takenFrom.value)
    {
      var i :| 0 <= i < |s.table| && s.table[i].name == name && s.table[i].detached
               && s.table[i].driver == s.bus[name].takenFrom.value;
      assert s.table[i] in Pruned(s.table, s.bus);
    }
  }

  /** Replacing the record of one interface keeps the records of all others. */
  lemma OthersRecorded(table: seq<UsbRecord>, i: nat, r: UsbRecord, name: string, driver: string)
    requires i < |table| && Recorded(table, name, driver) && table[i].name != name
    ensures Recorded(table[i := r], name, driver)
  {
    var j :| 0 <= j < |table| && table[j].name == name && table[j].detached && table[j].driver == driver;
    assert table[i := r][j] == table[j];
  }

  lemma AppendKeeps(table: seq<UsbRecord>, name: string)
    requires UniqueNames(table) && Find(table, name) == |table|
    ensures UniqueNames(table + [Blank(name)])
    ensures forall n, d :: Recorded(table, n, d) ==> Recorded(table + [Blank(name)], n, d)
  {
    forall n, d | Recorded(table, n, d)
      ensures Recorded(table + [Blank(name)], n, d)
    {
      var j :| 0 <= j < |table| && table[j].name == n && table[j].detached && table[j].driver == d;
      assert (table + [Blank(name)])[j] == table[j];
    }
  }

  lemma WithRecordKeeps(s: State, name: string)
    requires UsbInv(s)
    ensures UsbInv(s.(table := WithRecord(s.table, name)))
  {
    if Find(s.table, name) == |s.table| { AppendKeeps(s.table, name); }
  }

  lemma WriteKeepsInv(s: State, filter: seq<DeviceId>, now: nat, ok: bool)
    requires UsbInv(s) && CursorInv(s, filter)
    ensures UsbInv(Apply(s, filter, WriteUnbind(now, ok)))
  {
    if s.cursor.DriverRead? && Wanted(filter, s.cursor.name, ReadingOf(s.cursor)) {
      var name := s.cursor.name;
      WithRecordKeeps(s, name);
      var more := WithRecord(s.table, name);
      var t := Apply(s, filter, WriteUnbind(now, ok));
      var i := Find(more, name);
      if i < |more| && more[i].retryAfter <= now {
        forall n | n in t.bus && Taken(t.bus[n])
          ensures t.bus[n].driver.None? && Recorded(t.table, n, t.bus[n].takenFrom.value)
        {
          if n == name {
            assert t.table[i].name == name;
          } else {
            OthersRecorded(more, i, t.table[i], n, s.bus[n].takenFrom.value);
          }
        }
      }
    }
  }

  lemma StepKeepsCursor(s: State, filter: seq<DeviceId>, step: Step)
    requires UsbInv(s) && CursorInv(s, filter)
    ensures CursorInv(Apply(s, filter, step), filter)
  {
  }

  /** Nothing taken yet, and the plug-ins counted from here. */
  ghost predicate Untouched(bus: Bus)
  {
    forall name :: name in bus ==> !Taken(bus[name]) && bus[name].plug == 0
  }

  lemma {:induction false} RunKeeps(bus: Bus, filter: seq<DeviceId>, steps: seq<Step>)
    requires Untouched(bus)
    ensures UsbInv(Run(bus, filter, steps)) && CursorInv(Run(bus, filter, steps), filter)
    decreases |steps|
  {
    if steps != [] {
      var before, step := steps[..|steps| - 1], steps[|steps| - 1];
      RunKeeps(bus, filter, before);
      var s := Run(bus, filter, before);
      StepKeepsCursor(s, filter, step);
      match step
      case PruneTable => PruneKeepsInv(s, Between);
      case WriteUnbind(now, ok) => WriteKeepsInv(s, filter, now, ok);
      case _ =>
    }
  }

  /** Over any run, with hotplug and foreign binds between any two reads and writes: at
      most 64 uniquely named records, and every interface that was taken and is still
      driverless has exactly one record, marked detached, with the driver it came from. */
  lemma TakenInterfacesAreRecorded(bus: Bus, filter: seq<DeviceId>, steps: seq<Step>)
    requires Untouched(bus)
    ensures UsbInv(Run(bus, filter, steps))
  {
    RunKeeps(bus, filter, steps);
  }

  // ------------------------------------------------- which interfaces are taken

  /** The write in this state takes an interface that the filter does not name. */
  predicate TakesOutside(s: State, filter: seq<DeviceId>, now: nat, ok: bool)
  {
    var t := Apply(s, filter, WriteUnbind(now, ok));
    && s.cursor.DriverRead? && s.cursor.name in t.bus
    && Taken(t.bus[s.cursor.name]) && !Filtered(filter, t.bus[s.cursor.name])
  }

  /** The write goes through: a record is at hand, no retry delay runs, and the
      interface is bound to the driver that was read. */
  predicate GoesThrough(s: State, now: nat, ok: bool)
  {
    s.cursor.DriverRead? && Unbinds(s.bus, s.cursor.name, s.cursor.driver, ok) &&
    var more := WithRecord(s.table, s.cursor.name);
    var i := Find(more, s.cursor.name);
    i < |more| && more[i].retryAfter <= now && InterfaceName(s.cursor.name)
  }

  /** A write takes an interface outside the filter exactly when it goes through to a
      device that was plugged in after the vendor was read and is not in the filter. */
  lemma {:induction false} TakesOutsideIff(bus: Bus, filter: seq<DeviceId>, steps: seq<Step>, now: nat, ok: bool)
    requires Untouched(bus)
    ensures var s := Run(bus, filter, steps);
            TakesOutside(s, filter, now, ok) <==>
            GoesThrough(s, now, ok) && !SamePlug(s) && !Filtered(filter, s.bus[s.cursor.name])
  {
    RunKeeps(bus, filter, steps);
    WriteOutside(Run(bus, filter, steps), filter, now, ok);
  }

  lemma WriteOutside(s: State, filter: seq<DeviceId>, now: nat, ok: bool)
    requires CursorInv(s, filter)
    ensures TakesOutside(s, filter, now, ok) <==>
            GoesThrough(s, now, ok) && !SamePlug(s) && !Filtered(filter, s.bus[s.cursor.name])
  {
  }

  /** Over every run, a write takes the interface exactly when it goes through, whether or
      not the filter names the device that is there by then; record and retry delay are as
      the visit promises. */
  lemma {:induction false} TakenIff(bus: Bus, filter: seq<DeviceId>, steps: seq<Step>, now: nat, ok: bool)
    requires Untouched(bus) && Run(bus, filter, steps).cursor.DriverRead?
    ensures var s := Run(bus, filter, steps);
            var t, name := Apply(s, filter, WriteUnbind(now, ok)), s.cursor.name;
            && VisitPromise(s.table, s.bus, filter, name, ReadingOf(s.cursor), now, ok, t.table, t.bus)
            && UsbIds.DeviceId(s.cursor.vendor, s.cursor.product) in filter
            && (name in t.bus && Taken(t.bus[name]) <==>
                Writes(s.table, filter, name, ReadingOf(s.cursor), now)
                && ok && name in s.bus && s.bus[name].driver == Some(s.cursor.driver))
  {
    RunKeeps(bus, filter, steps);
    var s := Run(bus, filter, steps);
    VisitMeans(s.table, s.bus, filter, s.cursor.name, ReadingOf(s.cursor), now, ok);
  }

  /** One entry visited with nothing happening in between. */
  function Scanned(s: State, filter: seq<DeviceId>, name: string, now: nat, ok: bool): State
  {
    var vendor := Apply(s, filter, ReadVendor(name));
    var product := Apply(vendor, filter, ReadProduct);
    Apply(Apply(product, filter, ReadDriver), filter, WriteUnbind(now, ok))
  }

  /** Over every run, an undisturbed visit takes a bound interface exactly when its name is
      safe, the filter names its device, its driver has a safe name, there is room, no
      retry delay runs and the kernel goes along. */
  lemma {:induction false} VisitTakesIff(bus: Bus, filter: seq<DeviceId>, steps: seq<Step>, name: string, now: nat, ok: bool)
    requires Untouched(bus) && name in Run(bus, filter, steps).bus && Run(bus, filter, steps).bus[name].driver.Some?
    ensures var s := Run(bus, filter, steps);
            var t, i := Scanned(s, filter, name, now, ok), s.bus[name];
            && name in t.bus
            && (t.bus[name].takenFrom == i.driver && t.bus[name].driver.None? <==>
                && InterfaceName(name) && Filtered(filter, i) && SafeName(i.driver.value) && ok
                && (Named(s.table, name) || |s.table| < 64) && !Delayed(s.table, name, now))
            && (Taken(t.bus[name]) ==> UsbRecord(name, i.driver.value, true, false, 0) in t.table)
  {
    RunKeeps(bus, filter, steps);
    var s := Run(bus, filter, steps);
    var i := s.bus[name];
    if InterfaceName(name) && i.id.Some? && Filtered(filter, i) && VisibleDriver(i).Some? {
      var read := DriverRead(name, i.id.value.vendor, i.id.value.product, i.driver.value, i.plug);
      ReadThrough(s, filter, name);
      VisitMeans(s.table, s.bus, filter, name, ReadingOf(read), now, ok);
    }
  }

  lemma ReadThrough(s: State, filter: seq<DeviceId>, name: string)
    requires name in s.bus && InterfaceName(name) && Filtered(filter, s.bus[name]) && VisibleDriver(s.bus[name]).Some?
    ensures var i := s.bus[name];
            Apply(Apply(Apply(s, filter, ReadVendor(name)), filter, ReadProduct), filter, ReadDriver)
            == s.(cursor := DriverRead(name, i.id.value.vendor, i.id.value.product, i.driver.value, i.plug))
  {
  }

  /** No write of the run hit another device than the one that was read. */
  ghost predicate NoReplugRace(bus: Bus, filter: seq<DeviceId>, steps: seq<Step>)
  {
    forall k :: 0 <= k < |steps| && steps[k].WriteUnbind? ==> RacesNot(Run(bus, filter, steps[..k]))
  }

  predicate RacesNot(s: State)
  {
    s.cursor.DriverRead? && s.cursor.name in s.bus ==> SamePlug(s)
  }

  ghost predicate AllFiltered(s: State, filter: seq<DeviceId>)
  {
    forall name :: name in s.bus && Taken(s.bus[name]) ==> Filtered(filter, s.bus[name])
  }

  lemma StepKeepsFiltered(s: State, filter: seq<DeviceId>, step: Step)
    requires CursorInv(s, filter) && AllFiltered(s, filter) && (step.WriteUnbind? ==> RacesNot(s))
    ensures AllFiltered(Apply(s, filter, step), filter)
  {
  }

  /** So in every run without such a race no interface outside the filter is taken. */
  lemma {:induction false} OnlyFilteredTaken(bus: Bus, filter: seq<DeviceId>, steps: seq<Step>)
    requires Untouched(bus) && NoReplugRace(bus, filter, steps)
    ensures AllFiltered(Run(bus, filter, steps), filter)
    decreases |steps|
  {
    if steps != [] {
      var before := steps[..|steps| - 1];
      assert NoReplugRace(bus, filter, before) by {
        assert forall k :: 0 <= k < |before| ==> before[k] == steps[k] && before[..k] == steps[..k];
      }
      OnlyFilteredTaken(bus, filter, before);
      RunKeeps(bus, filter, before);
      StepKeepsFiltered(Run(bus, filter, before), filter, steps[|steps| - 1]);
    }
  }

  /** The race is real: whatever the filter, a device outside it that replaces a filtered
      one at the same port and with the same driver just before the write is taken. */
  lemma {:induction false} ReplugCanBeTaken(filter: seq<DeviceId>, wanted: DeviceId, other: DeviceId, name: string, driver: string)
      returns (steps: seq<Step>)
    requires wanted in filter && other !in filter && InterfaceName(name) && SafeName(driver)
    ensures var s := Run(map[], filter, steps);
            name in s.bus && s.bus[name].id == Some(other) && Taken(s.bus[name]) && !Filtered(filter, s.bus[name])
  {
    var read := DriverRead(name, wanted.vendor, wanted.product, driver, 1);
    steps := ReadAll(filter, wanted, name, driver);
    var s1 := State([], map[name := Interface(Some(wanted), Some(driver), 1, None)], read, 2);
    steps := Then(filter, steps, s1, Unplug(name));
    assert s1.bus - {name} == map[];
    steps := Then(filter, steps, State([], map[], read, 2), Plug(name, Some(other), Some(driver)));
    var s2 := State([], map[name := Interface(Some(other), Some(driver), 2, None)], read, 3);
    steps := Then(filter, steps, s2, WriteUnbind(0, true));
    assert GoesThrough(s2, 0, true) by { FindAppended([], name); assert [] + [Blank(name)] == [Blank(name)]; }
  }

  lemma OrdinaryNames()
    ensures InterfaceName("1-1.4:1.0") && SafeName("usb-storage") && SafeName("snd_usb_audio")
  {
    assert "1-1.4:1.0"[5] == ':';
  }

  /** And an ordinary device that the filter names is taken: a mass storage interface,
      plugged in, scanned and written to, with its record. */
  lemma {:induction false} OrdinaryDeviceIsTaken(filter: seq<DeviceId>, wanted: DeviceId, now: nat) returns (steps: seq<Step>)
    requires wanted in filter
    ensures Run(map[], filter, steps).bus == map["1-1.4:1.0" := Interface(Some(wanted), None, 1, Some("usb-storage"))]
    ensures UsbRecord("1-1.4:1.0", "usb-storage", true, false, 0) in Run(map[], filter, steps).table
  {
    OrdinaryNames();
    var name, driver := "1-1.4:1.0", "usb-storage";
    var bus := map[name := Interface(Some(wanted), Some(driver), 1, None)];
    var s := State([], bus, DriverRead(name, wanted.vendor, wanted.product, driver, 1), 2);
    steps := ReadAll(filter, wanted, name, driver);
    steps := Then(filter, steps, s, WriteUnbind(now, true));
    VisitMeans([], bus, filter, name, ReadingOf(s.cursor), now, true);
  }

  lemma ReadAll(filter: seq<DeviceId>, wanted: DeviceId, name: string, driver: string) returns (steps: seq<Step>)
    requires wanted in filter && InterfaceName(name) && SafeName(driver)
    ensures Run(map[], filter, steps) == State([], map[name := Interface(Some(wanted), Some(driver), 1, None)],
                                               DriverRead(name, wanted.vendor, wanted.product, driver, 1), 2)
  {
    var s0 := State([], map[], Between, 1);
    assert Run(map[], filter, []) == s0;
    steps := Then(filter, [], s0, Plug(name, Some(wanted), Some(driver)));
    var s1 := State([], map[name := Interface(Some(wanted), Some(driver), 1, None)], Between, 2);
    steps := Then(filter, steps, s1, ReadVendor(name));
    steps := Then(filter, steps, s1.(cursor := VendorRead(name, wanted.vendor, 1)), ReadProduct);
    steps := Then(filter, steps, s1.(cursor := IdRead(name, wanted.vendor, wanted.product, 1)), ReadDriver);
  }

  lemma Then(filter: seq<DeviceId>, steps: seq<Step>, s: State, step: Step) returns (more: seq<Step>)
    requires Run(map[], filter, steps) == s
    ensures Run(map[], filter, more) == Apply(s, filter, step)
  {
    more := steps + [step];
    assert more[..|more| - 1] == steps;
  }

  // ------------------------------------------------------------------- restore

  lemma {:induction false} RestoreKeepsBound(table: seq<UsbRecord>, bus: Bus, oks: seq<bool>, name: string)
    requires |oks| == |table| && name in bus && bus[name].driver.Some?
    ensures name in RestoreAll(table, bus, oks) && RestoreAll(table, bus, oks)[name] == bus[name]
    decreases |table|
  {
    if table != [] {
      var n := |table| - 1;
      RestoreKeepsBound(table[..n], RestoreOne(table[n], bus, oks[n]), oks[..n], name);
    }
  }

  /** With unique names, the record at i binds its own interface, exactly if its own write
      succeeds, and no other record interferes. */
  lemma {:induction false} RestoreBinds(table: seq<UsbRecord>, bus: Bus, oks: seq<bool>, i: nat)
    requires |oks| == |table| && UniqueNames(table)
    requires i < |table| && table[i].detached && table[i].name in bus && bus[table[i].name].driver.None?
    ensures var after := RestoreAll(table, bus, oks);
            table[i].name in after && after[table[i].name].driver == if oks[i] then Some(table[i].driver) else None
    decreases |table|
  {
    var n := |table| - 1;
    var next := RestoreOne(table[n], bus, oks[n]);
    if i < n {
      assert table[..n][i] == table[i];
      RestoreBinds(table[..n], next, oks[..n], i);
    } else if oks[n] {
      RestoreKeepsBound(table[..n], next, oks[..n], table[i].name);
    } else {
      RestoreTouchesOnlyRecorded(table[..n], next, oks[..n], table[i].name);
    }
  }

  lemma {:induction false} RestoreTouchesOnlyRecorded(table: seq<UsbRecord>, bus: Bus, oks: seq<bool>, name: string)
    requires |oks| == |table| && name in bus
    requires forall i :: 0 <= i < |table| && table[i].detached ==> table[i].name != name
    ensures name in RestoreAll(table, bus, oks) && RestoreAll(table, bus, oks)[name] == bus[name]
    decreases |table|
  {
    if table != [] {
      var n := |table| - 1;
      RestoreTouchesOnlyRecorded(table[..n], RestoreOne(table[n], bus, oks[n]), oks[..n], name);
    }
  }

  /** After any run: a taken interface is back on the driver it was taken from exactly if
      its own bind write succeeds. */
  lemma {:induction false} RestoreGivesEverythingBack(bus: Bus, filter: seq<DeviceId>, steps: seq<Step>, oks: seq<bool>, name: string)
      returns (i: nat)
    requires Untouched(bus)
    requires |oks| == |Run(bus, filter, steps).table|
    requires name in Run(bus, filter, steps).bus && Taken(Run(bus, filter, steps).bus[name])
    ensures var s := Run(bus, filter, steps);
            var after := RestoreAll(s.table, s.bus, oks);
            && i < |s.table| && s.table[i].name == name
            && name in after && after[name].driver == if oks[i] then s.bus[name].takenFrom else None
  {
    RunKeeps(bus, filter, steps);
    var s := Run(bus, filter, steps);
    i :| 0 <= i < |s.table| && s.table[i].name == name && s.table[i].detached
         && s.table[i].driver == s.bus[name].takenFrom.value;
    RestoreBinds(s.table, s.bus, oks, i);
  }
}
