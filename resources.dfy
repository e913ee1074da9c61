/**
 * `ResourceManager` (resource_manager.py): a table of base compute resources, each
 * with a capacity and an available amount, from which `allocate` cuts slices and to
 * which `release` credits them back. Hardware detection is replaced by a `Host`
 * description given to the constructor; executors are tracked by name only.
 */
module Resources {
  import opened Wrappers
  import opened Values
  import opened Strings

  datatype ResourceType = CPU | CUDA | ROCM | OPENCL | TPU | RAY | DASK

  /** The `Resource` dataclass; amounts are exact reals. */
  datatype Resource = Resource(
    rtype: ResourceType,
    id: string,
    name: string,
    capacity: real,
    available: real,
    metadata: Dict)

  /** One detected NVIDIA device: its name and the metadata gathered about it. */
  datatype Gpu = Gpu(name: string, metadata: Dict)

  /** What detection finds: `os.cpu_count()` (0 standing for None), the CPU facts
      reported under "cpu_info", and the devices `nvidia-smi -L` lists, in order. */
  datatype Host = Host(cpuCount: nat, cpuInfo: Dict, gpus: seq<Gpu>)

  datatype ResourceError =
    | InvalidAmount(amount: real)                           // ValueError
    | NoCapacity(rtype: ResourceType, amount: real)          // ResourceAllocationError
    | UnknownExecutor(kind: string)                          // ValueError

  /** `os.cpu_count() or 1`. */
  function LogicalCpus(h: Host): (n: real)
    ensures n >= 1.0
  {
    if h.cpuCount == 0 then 1.0 else h.cpuCount as real
  }

  /** The table `initialize` builds: the CPU entry "cpu:0", then "cuda:i" for each
      device, every one with nothing allocated. */
  function Detected(h: Host): (t: seq<Resource>)
    ensures |t| == |h.gpus| + 1
    ensures t[0].rtype == CPU && t[0].id == "cpu:0" && t[0].capacity == LogicalCpus(h)
    ensures forall i :: 1 <= i < |t| ==> t[i].rtype == CUDA && t[i].capacity == 1.0
    ensures forall i :: 0 <= i < |t| ==> t[i].available == t[i].capacity
  {
    var cpus := LogicalCpus(h);
    [Resource(CPU, "cpu:0", "Main CPU", cpus, cpus, map["cpu_info" := Obj(h.cpuInfo)])]
      + seq(|h.gpus|, i requires 0 <= i < |h.gpus| =>
              Resource(CUDA, "cuda:" + IntToString(i), h.gpus[i].name + " (CUDA)", 1.0, 1.0,
                       h.gpus[i].metadata))
  }

  /** No two entries share a (type, id) key, as in the dictionary the source keeps. */
  predicate UniqueKeys(t: seq<Resource>) {
    forall i, j :: 0 <= i < j < |t| ==> t[i].rtype != t[j].rtype || t[i].id != t[j].id
  }

  /** The detected table is a faithful image of a dictionary: its keys are distinct. */
  lemma DetectedUniqueKeys(h: Host)
    ensures UniqueKeys(Detected(h))
  {
    var t := Detected(h);
    forall i, j | 0 <= i < j < |t| ensures t[i].rtype != t[j].rtype || t[i].id != t[j].id {
      if i > 0 {
        IntToStringInjective(i - 1, j - 1);
        var x, y := IntToString(i - 1), IntToString(j - 1);
        assert t[i].id == "cuda:" + x && t[j].id == "cuda:" + y;
        assert ("cuda:" + x)[5..] == x && ("cuda:" + y)[5..] == y;
      }
    }
  }

  /** Every entry has `0 <= available <= capacity`. */
  predicate Bounded(t: seq<Resource>) {
    forall i :: 0 <= i < |t| ==> 0.0 <= t[i].available <= t[i].capacity
  }

  /** `t` is `base` with only the available amounts changed. */
  predicate SameEntries(t: seq<Resource>, base: seq<Resource>) {
    |t| == |base| && forall i :: 0 <= i < |t| ==> t[i] == base[i].(available := t[i].available)
  }

  // ---------------------------------------------------------------------------
  // allocate

  /** A candidate of `allocate`: the requested type with at least `amount` available. */
  predicate Fits(r: Resource, rtype: ResourceType, amount: real) {
    r.rtype == rtype && r.available >= amount
  }

  /** Entry `i` is what the stable descending sort of the candidates puts first: a
      candidate with the greatest available, and strictly greater than every
      candidate before it. */
  predicate IsBest(t: seq<Resource>, rtype: ResourceType, amount: real, i: int) {
    0 <= i < |t| && Fits(t[i], rtype, amount)
    && (forall j :: 0 <= j < |t| && Fits(t[j], rtype, amount) ==> t[j].available <= t[i].available)
    && (forall j :: 0 <= j < i && Fits(t[j], rtype, amount) ==> t[j].available < t[i].available)
  }

  /** At most one entry is the best candidate. */
  lemma BestUnique(t: seq<Resource>, rtype: ResourceType, amount: real, i: int, k: int)
    requires IsBest(t, rtype, amount, i) && IsBest(t, rtype, amount, k)
    ensures i == k
  {
  }

  /** The best candidate of a table, scanning it entry by entry. */
  function Best(t: seq<Resource>, rtype: ResourceType, amount: real): (r: Option<nat>)
    ensures r.Some? ==> IsBest(t, rtype, amount, r.value)
    ensures r.None? ==> forall j :: 0 <= j < |t| ==> !Fits(t[j], rtype, amount)
  {
    if t == [] then None
    else
      var b := Best(t[..|t| - 1], rtype, amount);
      var last := t[|t| - 1];
      if Fits(last, rtype, amount) && (b.None? || last.available > t[b.value].available) then
        Some(|t| - 1)
      else b
  }

  /** The record `allocate` returns for `amount` taken from `base`. */
  function Slice(base: Resource, amount: real, suffix: string): Resource {
    Resource(base.rtype, base.id + ":" + suffix, base.name + " (allocated)", amount, amount,
             base.metadata)
  }

  /** Entry `i` with `amount` taken from its available. */
  function Took(t: seq<Resource>, i: nat, amount: real): (r: seq<Resource>)
    requires i < |t|
    ensures SameEntries(r, t)
  {
    t[i := t[i].(available := t[i].available - amount)]
  }

  /**
   * What `allocate` does to an initialized table: the outcome and the new table.
   * `suffix` stands for the hexadecimal object id that makes the slice id unique.
   */
  function Allocation(t: seq<Resource>, rtype: ResourceType, amount: real, suffix: string)
    : (r: (Result<seq<Resource>, ResourceError>, seq<Resource>))
    ensures amount <= 0.0 ==> r.0 == Err(InvalidAmount(amount))
    ensures amount > 0.0 ==>
      (r.0.Err? <==> forall j :: 0 <= j < |t| ==> !Fits(t[j], rtype, amount))
    ensures r.0.Err? ==> r.1 == t
    ensures r.0.Err? && amount > 0.0 ==> r.0 == Err(NoCapacity(rtype, amount))
  {
    if amount <= 0.0 then (Err(InvalidAmount(amount)), t)
    else
      var b := Best(t, rtype, amount);
      if b.None? then (Err(NoCapacity(rtype, amount)), t)
      else (Ok([Slice(t[b.value], amount, suffix)]), Took(t, b.value, amount))
  }

  /** On success, `allocate` takes exactly `amount` from the best candidate, leaves
      every other entry as it was, and returns one slice of that candidate. */
  lemma AllocationTakesBest(t: seq<Resource>, rtype: ResourceType, amount: real, suffix: string, i: nat)
    requires amount > 0.0 && IsBest(t, rtype, amount, i)
    ensures Allocation(t, rtype, amount, suffix) == (Ok([Slice(t[i], amount, suffix)]), Took(t, i, amount))
  {
    BestUnique(t, rtype, amount, i, Best(t, rtype, amount).value);
  }

  /** `allocate` keeps every entry within its capacity and above zero. */
  lemma AllocationBounded(t: seq<Resource>, rtype: ResourceType, amount: real, suffix: string)
    requires Bounded(t)
    ensures Bounded(Allocation(t, rtype, amount, suffix).1)
    ensures SameEntries(Allocation(t, rtype, amount, suffix).1, t)
  {
  }

  // ---------------------------------------------------------------------------
  // release

  /** How `release` finds the base that a returned record belongs to. */
  datatype OwnerRule =
    | ByPrefix   // as written: same type, id starting with the record id's text before its first ':'
    | ByDonor    // as intended: same type, id equal to the record id without its last ':' part

  /** `resource.id.split(":", 1)[0]`: the text before the first ':'. */
  function BaseId(id: string): string {
    SplitOn(id, ":")[0]
  }

  predicate Owns(base: Resource, record: Resource, rule: OwnerRule) {
    base.rtype == record.rtype
    && match rule
       case ByPrefix => StartsWith(base.id, BaseId(record.id))
       case ByDonor => base.id == BeforeLast(record.id, ':')
  }

  /** The first entry in table order that owns `record`, if any. */
  function FirstOwner(t: seq<Resource>, record: Resource, rule: OwnerRule): (r: Option<nat>)
    ensures r.Some? ==> r.value < |t| && Owns(t[r.value], record, rule)
                        && forall j :: 0 <= j < r.value ==> !Owns(t[j], record, rule)
    ensures r.None? ==> forall j :: 0 <= j < |t| ==> !Owns(t[j], record, rule)
  {
    if t == [] then None
    else if Owns(t[0], record, rule) then Some(0)
    else
      var r := FirstOwner(t[1..], record, rule);
      if r.None? then None else Some(r.value + 1)
  }

  function MinReal(a: real, b: real): (m: real)
    ensures m <= a && m <= b && (m == a || m == b)
  {
    if a <= b then a else b
  }

  /** One record credited back: the owner's available grows by the record's
      capacity, capped at the owner's capacity; a record without owner is ignored. */
  function Credited(t: seq<Resource>, record: Resource, rule: OwnerRule): (r: seq<Resource>)
    ensures SameEntries(r, t)
  {
    var o := FirstOwner(t, record, rule);
    if o.None? then t
    else
      var i := o.value;
      t[i := t[i].(available := MinReal(t[i].available + record.capacity, t[i].capacity))]
  }

  /** The owner found at position `j` is the one credited. */
  lemma CreditedAt(t: seq<Resource>, record: Resource, rule: OwnerRule, j: nat)
    requires j < |t| && Owns(t[j], record, rule)
    requires forall k :: 0 <= k < j ==> !Owns(t[k], record, rule)
    ensures Credited(t, record, rule)
            == t[j := t[j].(available := MinReal(t[j].available + record.capacity, t[j].capacity))]
  {
  }

  /** Keeping the entries of a table that keeps the entries of a third keeps the
      entries of the third. */
  lemma SameEntriesTrans(a: seq<Resource>, b: seq<Resource>, c: seq<Resource>)
    requires SameEntries(a, b) && SameEntries(b, c)
    ensures SameEntries(a, c)
  {
  }

  /** `release` of a list of records, credited in list order. */
  function Released(t: seq<Resource>, records: seq<Resource>, rule: OwnerRule): (r: seq<Resource>)
    ensures SameEntries(r, t)
  {
    if records == [] then t
    else Credited(Released(t, records[..|records| - 1], rule), records[|records| - 1], rule)
  }

  /** Releasing records of non-negative capacity keeps every entry within bounds. */
  lemma {:induction false} ReleasedBounded(t: seq<Resource>, records: seq<Resource>, rule: OwnerRule)
    requires Bounded(t)
    requires forall k :: 0 <= k < |records| ==> records[k].capacity >= 0.0
    ensures Bounded(Released(t, records, rule))
  {
    if records != [] {
      ReleasedBounded(t, records[..|records| - 1], rule);
    }
  }

  /** In a table with distinct keys, the only owner (by donor) of a slice of entry
      `i` is entry `i`. */
  lemma DonorIsOwner(t: seq<Resource>, i: nat, record: Resource)
    requires i < |t| && UniqueKeys(t)
    requires record.rtype == t[i].rtype && BeforeLast(record.id, ':') == t[i].id
    ensures FirstOwner(t, record, ByDonor) == Some(i)
  {
    forall j | 0 <= j < |t| && j != i ensures !Owns(t[j], record, ByDonor) {
      if j < i {
        assert t[j].rtype != t[i].rtype || t[j].id != t[i].id;
      } else {
        assert t[i].rtype != t[j].rtype || t[i].id != t[j].id;
      }
    }
  }

  /** The intended round trip: releasing what `allocate` handed out restores the
      table exactly, whatever the table's shape. */
  lemma AllocateReleaseRoundTrip(t: seq<Resource>, rtype: ResourceType, amount: real, suffix: string)
    requires Bounded(t) && UniqueKeys(t) && ':' !in suffix
    requires Allocation(t, rtype, amount, suffix).0.Ok?
    ensures Released(Allocation(t, rtype, amount, suffix).1,
                     Allocation(t, rtype, amount, suffix).0.value, ByDonor) == t
  {
    var i := Best(t, rtype, amount).value;
    var taken := Took(t, i, amount);
    var record := Slice(t[i], amount, suffix);
    assert Allocation(t, rtype, amount, suffix) == (Ok([record]), taken);
    BeforeLastOfAppended(t[i].id, ':', suffix);
    assert t[i].id + ":" + suffix == t[i].id + [':'] + suffix;
    assert UniqueKeys(taken);
    DonorIsOwner(taken, i, record);
    assert [record][..0] == [];
    assert Credited(taken, record, ByDonor) == t;
  }

  /** `release` as written applies the prefix rule to the ids of sliced records:
      the text before the first ':' of "base:suffix" is that of the base id. */
  lemma PrefixOfSlice(base: string, suffix: string, head: string, tail: string)
    requires base == head + ":" + tail && ':' !in head
    ensures BaseId(base + ":" + suffix) == head
  {
    assert base + ":" + suffix == head + [':'] + (tail + ":" + suffix);
    FirstPieceBefore(head, ':', tail + ":" + suffix);
  }

  /** As written, releasing the CPU slice `allocate` hands out from a freshly
      detected table restores it: the CPU entry is the first whose id starts with
      "cpu". */
  lemma CpuRoundTripAsWritten(h: Host, amount: real, suffix: string)
    requires 0.0 < amount <= LogicalCpus(h)
    ensures Allocation(Detected(h), CPU, amount, suffix).0.Ok?
    ensures Released(Allocation(Detected(h), CPU, amount, suffix).1,
                     Allocation(Detected(h), CPU, amount, suffix).0.value, ByPrefix) == Detected(h)
  {
    var t := Detected(h);
    assert Fits(t[0], CPU, amount);
    var i := Best(t, CPU, amount).value;
    assert i == 0;
    var taken := Took(t, 0, amount);
    var record := Slice(t[0], amount, suffix);
    assert Allocation(t, CPU, amount, suffix) == (Ok([record]), taken);
    PrefixOfSlice("cpu:0", suffix, "cpu", "0");
    assert StartsWith(taken[0].id, "cpu");
    assert FirstOwner(taken, record, ByPrefix) == Some(0);
    assert [record][..0] == [];
  }

  /** The table `initialize` builds on a host with two devices. */
  const TwoGpus: Host := Host(8, map[], [Gpu("A", map[]), Gpu("B", map[])])

  function Unit(rtype: ResourceType, id: string, name: string, available: real, metadata: Dict): Resource {
    Resource(rtype, id, name, 1.0, available, metadata)
  }

  lemma TwoGpuTable()
    ensures Detected(TwoGpus) ==
      [Resource(CPU, "cpu:0", "Main CPU", 8.0, 8.0, map["cpu_info" := Obj(map[])]),
       Unit(CUDA, "cuda:0", "A (CUDA)", 1.0, map[]),
       Unit(CUDA, "cuda:1", "B (CUDA)", 1.0, map[])]
  {
    var t := Detected(TwoGpus);
    var gpus := TwoGpus.gpus;
    assert IntToString(0) == "0" && IntToString(1) == "1";
    assert t[1] == Resource(CUDA, "cuda:" + IntToString(0), gpus[0].name + " (CUDA)", 1.0, 1.0, map[]);
    assert t[2] == Resource(CUDA, "cuda:" + IntToString(1), gpus[1].name + " (CUDA)", 1.0, 1.0, map[]);
    assert t[0] == Resource(CPU, "cpu:0", "Main CPU", 8.0, 8.0, map["cpu_info" := Obj(map[])]);
    assert "cuda:" + "0" == "cuda:0" && "cuda:" + "1" == "cuda:1";
    assert "A" + " (CUDA)" == "A (CUDA)" && "B" + " (CUDA)" == "B (CUDA)";
  }

  /**
   * As written, `release` credits the wrong device: after two unit allocations take
   * cuda:0 and then cuda:1, releasing the cuda:1 slice (id "cuda:1:b", prefix
   * "cuda") credits cuda:0, the first CUDA entry, and cuda:1 stays exhausted.
   */
  lemma SecondGpuLeaksAsWritten()
    ensures Allocation(Detected(TwoGpus), CUDA, 1.0, "a").0.Ok?
    ensures Allocation(Allocation(Detected(TwoGpus), CUDA, 1.0, "a").1, CUDA, 1.0, "b").0.Ok?
    ensures var t1 := Allocation(Detected(TwoGpus), CUDA, 1.0, "a").1;
            var a2 := Allocation(t1, CUDA, 1.0, "b");
            var after := Released(a2.1, a2.0.value, ByPrefix);
            after[2].id == "cuda:1" && after[2].available == 0.0 && after != t1
  {
    TwoGpuTable();
    var t0 := Detected(TwoGpus);
    assert IsBest(t0, CUDA, 1.0, 1);
    BestUnique(t0, CUDA, 1.0, 1, Best(t0, CUDA, 1.0).value);
    var t1 := Took(t0, 1, 1.0);
    assert Allocation(t0, CUDA, 1.0, "a").1 == t1;
    assert IsBest(t1, CUDA, 1.0, 2);
    BestUnique(t1, CUDA, 1.0, 2, Best(t1, CUDA, 1.0).value);
    var t2 := Took(t1, 2, 1.0);
    var record := Slice(t1[2], 1.0, "b");
    assert Allocation(t1, CUDA, 1.0, "b") == (Ok([record]), t2);
    PrefixOfSlice("cuda:1", "b", "cuda", "1");
    assert !Owns(t2[0], record, ByPrefix) && Owns(t2[1], record, ByPrefix);
    assert FirstOwner(t2, record, ByPrefix) == Some(1);
    assert [record][..0] == [];
    assert Released(t2, [record], ByPrefix)[2] == t2[2];
  }

  // ---------------------------------------------------------------------------
  // the manager

  /** `initialize` on a table: the detected table, only when not yet initialized. */
  function Ready(initialized: bool, t: seq<Resource>, detected: seq<Resource>): seq<Resource> {
    if initialized then t else detected
  }

  const ExecutorNames: set<string> := {"io", "cpu"}

  class ResourceManager {
    const host: Host
    /** The table detection finds on this host. */
    const detected: seq<Resource>
    var table: seq<Resource>
    var executors: set<string>
    var initialized: bool

    /** Before `initialize` (and after `cleanup`) there is nothing; after it, the
        detected entries with only their available amounts changed, and both
        executors. */
    ghost predicate Valid()
      reads this
    {
      (initialized ==> SameEntries(table, detected) && executors == ExecutorNames)
      && (!initialized ==> table == [] && executors == {})
    }

    constructor (h: Host)
      ensures Valid() && host == h && detected == Detected(h) && !initialized
    {
      host := h;
      detected := Detected(h);
      table := [];
      executors := {};
      initialized := false;
    }

    /** `initialize`: the first call detects the table and starts both executors;
        later calls change nothing. */
    method Initialize()
      requires Valid()
      modifies this
      ensures Valid() && initialized
      ensures table == Ready(old(initialized), old(table), detected)
      ensures executors == ExecutorNames
    {
      if initialized {
        return;
      }
      table := detected;
      executors := ExecutorNames;
      initialized := true;
    }

    /** `allocate`: initializes, then takes `amount` from the best candidate. */
    method Allocate(rtype: ResourceType, amount: real, suffix: string)
      returns (r: Result<seq<Resource>, ResourceError>)
      requires Valid()
      modifies this
      ensures Valid() && initialized && executors == ExecutorNames
      ensures r == Allocation(Ready(old(initialized), old(table), detected), rtype, amount, suffix).0
      ensures table == Allocation(Ready(old(initialized), old(table), detected), rtype, amount, suffix).1
    {
      Initialize();
      if amount <= 0.0 {
        return Err(InvalidAmount(amount));
      }
      var best := FindBest(rtype, amount);
      if best.None? {
        return Err(NoCapacity(rtype, amount));
      }
      var slice := TakeFrom(best.value, amount, suffix);
      r := Ok([slice]);
    }

    /** The decrement step of `allocate` on the chosen entry: `min(amount,
        available)` is `amount`, since the entry is a candidate. */
    method TakeFrom(i: nat, amount: real, suffix: string) returns (slice: Resource)
      requires Valid() && initialized && i < |table| && table[i].available >= amount
      modifies this
      ensures Valid() && initialized && executors == old(executors)
      ensures table == Took(old(table), i, amount)
      ensures slice == Slice(old(table)[i], amount, suffix)
    {
      var base := table[i];
      var taken := MinReal(amount, base.available);
      table := table[i := base.(available := base.available - taken)];
      slice := Slice(base, taken, suffix);
    }

    /** The selection step of `allocate`: the candidates are scanned in table order
        and the first with the greatest available is kept. */
    method FindBest(rtype: ResourceType, amount: real) returns (best: Option<nat>)
      ensures best.Some? ==> IsBest(table, rtype, amount, best.value)
      ensures best.None? ==> forall j :: 0 <= j < |table| ==> !Fits(table[j], rtype, amount)
      ensures best == Best(table, rtype, amount)
    {
      best := None;
      var i := 0;
      while i < |table|
        invariant 0 <= i <= |table|
        invariant best == Best(table[..i], rtype, amount)
      {
        assert table[..i + 1][..i] == table[..i];
        var candidate := table[i];
        if candidate.rtype == rtype && candidate.available >= amount
           && (best.None? || candidate.available > table[best.value].available) {
          best := Some(i);
        }
        i := i + 1;
      }
      assert table[..i] == table;
    }

    /** `release` as written: each record credited in turn to the first entry of
        its type whose id starts with the record id's text before its first ':'
        (the prefix rule); an empty list changes nothing. */
    method Release(records: seq<Resource>)
      requires Valid()
      modifies this
      ensures Valid() && initialized == old(initialized) && executors == old(executors)
      ensures table == Released(old(table), records, ByPrefix)
    {
      if records == [] {
        return;
      }
      var i := 0;
      while i < |records|
        invariant 0 <= i <= |records|
        invariant Valid() && initialized == old(initialized) && executors == old(executors)
        invariant table == Released(old(table), records[..i], ByPrefix)
      {
        assert records[..i + 1][..i] == records[..i];
        Credit(records[i]);
        i := i + 1;
      }
      assert records[..i] == records;
    }

    /** The inner loop of `release`: the first entry of the record's type whose id
        starts with the record id's text before its first ':' is credited, then the
        search stops. */
    method Credit(record: Resource)
      requires Valid()
      modifies this
      ensures Valid() && initialized == old(initialized) && executors == old(executors)
      ensures table == Credited(old(table), record, ByPrefix)
    {
      var j := 0;
      while j < |table|
        invariant 0 <= j <= |table| && table == old(table)
        invariant forall k :: 0 <= k < j ==> !Owns(table[k], record, ByPrefix)
      {
        if table[j].rtype == record.rtype && StartsWith(table[j].id, BaseId(record.id)) {
          CreditedAt(table, record, ByPrefix, j);
          SameEntriesTrans(Credited(table, record, ByPrefix), table, detected);
          var base := table[j];
          table := table[j := base.(available := MinReal(base.available + record.capacity,
                                                         base.capacity))];
          return;
        }
        j := j + 1;
      }
    }

    /** `get_executor`: the executor under `kind`, or ValueError for an unknown one. */
    function GetExecutor(kind: string): (r: Result<string, ResourceError>)
      reads this
      ensures r.Ok? <==> kind in executors
      ensures r.Ok? ==> r.value == kind
      ensures r.Err? ==> r.error == UnknownExecutor(kind)
    {
      if kind in executors then Ok(kind) else Err(UnknownExecutor(kind))
    }

    /** `cleanup`: executors shut down, table emptied, back to uninitialized. */
    method Cleanup()
      requires Valid()
      modifies this
      ensures Valid() && !initialized && table == [] && executors == {}
    {
      executors := {};
      table := [];
      initialized := false;
    }
  }

  /** Before `initialize`, and after `cleanup`, no executor can be obtained. */
  lemma NoExecutorBeforeInitialize(m: ResourceManager, kind: string)
    requires m.Valid() && !m.initialized
    ensures m.GetExecutor(kind) == Err(UnknownExecutor(kind))
  {
  }
}
