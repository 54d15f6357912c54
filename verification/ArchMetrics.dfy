/** The process-corner architecture model, `modeled_workload_entries` and `modeled_14a_cpu_ap`, over the reals. */
module ArchMetrics {
  import opened Json

  datatype Workload = Workload(instructions: nat, baseIpc: real, mpki: real, activity: real)

  datatype Corner = Corner(
    name: string, frequencyDerate: real, ipcDerate: real,
    dynamicPowerScale: real, leakagePowerScale: real, thermalResistanceScale: real)

  datatype Args = Args(cores: int, baseFrequencyHz: int, basePowerW: real, ambientC: real)

  datatype Entry = Entry(
    instructions: nat, targetCycles: int, frequencyHz: int, ipc: real, mpki: real,
    elapsedSeconds: real, powerW: real, energyJ: real)

  datatype CornerEntry = CornerEntry(
    name: string, frequencyHz: int, targetCycles: int, instructions: int, ipc: real,
    powerW: real, dieTempC: real, instructionsPerJoule: real, workloads: seq<Entry>)

  /** `int(r)`: towards zero. */
  function Trunc(r: real): int {
    if r >= 0.0 then r.Floor else -((-r).Floor)
  }

  function FrequencyOf(a: Args, c: Corner): int {
    Trunc(a.baseFrequencyHz as real * c.frequencyDerate)
  }

  /** The divisor of the cycle count. */
  function Rate(w: Workload, a: Args, c: Corner): real {
    w.baseIpc * c.ipcDerate * a.cores as real
  }

  /** One workload at one corner, or nothing where a division by zero raises. */
  function EntryOf(w: Workload, a: Args, c: Corner): Option<Entry> {
    var frequency, rate := FrequencyOf(a, c), Rate(w, a, c);
    if rate == 0.0 || frequency == 0 || c.ipcDerate == 0.0 then None
    else
      var cycles := Trunc(w.instructions as real / rate);
      var elapsed := cycles as real / frequency as real;
      var power := a.basePowerW * w.activity * c.dynamicPowerScale + a.basePowerW * 0.18 * c.leakagePowerScale;
      Some(Entry(w.instructions, cycles, frequency, w.baseIpc * c.ipcDerate, w.mpki / c.ipcDerate, elapsed, power, power * elapsed))
  }

  function EntryList(workloads: seq<Workload>, a: Args, c: Corner): seq<Option<Entry>> {
    seq(|workloads|, i requires 0 <= i < |workloads| => EntryOf(workloads[i], a, c))
  }

  /** The loop of `modeled_workload_entries`. */
  method ModeledWorkloadEntries(workloads: seq<Workload>, a: Args, c: Corner) returns (r: Option<seq<Entry>>)
    ensures r == AllSome(EntryList(workloads, a, c))
  {
    ghost var wanted := EntryList(workloads, a, c);
    var entries: seq<Entry> := [];
    for i := 0 to |workloads|
      invariant AllSome(wanted[..i]) == Some(entries)
    {
      assert wanted[..i + 1][..i] == wanted[..i];
      var e := EntryOf(workloads[i], a, c);
      assert e == wanted[i];
      if e.None? {
        return None;
      }
      entries := entries + [e.value];
    }
    assert wanted[..|workloads|] == wanted;
    r := Some(entries);
  }

  // ---------- sums and extremes ----------

  function TotalInstructions(es: seq<Entry>): nat {
    if es == [] then 0 else es[0].instructions + TotalInstructions(es[1..])
  }

  function TotalCycles(es: seq<Entry>): int {
    if es == [] then 0 else es[0].targetCycles + TotalCycles(es[1..])
  }

  function TotalEnergy(es: seq<Entry>): real {
    if es == [] then 0.0 else es[0].energyJ + TotalEnergy(es[1..])
  }

  function TotalMpki(es: seq<Entry>): real {
    if es == [] then 0.0 else es[0].mpki + TotalMpki(es[1..])
  }

  function MaxPower(es: seq<Entry>): (p: real)
    requires es != []
    ensures forall e :: e in es ==> e.powerW <= p
    ensures exists e :: e in es && e.powerW == p
  {
    if |es| == 1 then es[0].powerW
    else
      assert es == [es[0]] + es[1..];
      var rest := MaxPower(es[1..]);
      if es[0].powerW > rest then es[0].powerW else rest
  }

  /** The aggregate entry of a corner, or nothing where it raises. */
  function CornerOf(workloads: seq<Workload>, a: Args, c: Corner): Option<CornerEntry> {
    match AllSome(EntryList(workloads, a, c))
    case None => None
    case Some(es) => Aggregate(es, a, c)
  }

  /** Instructions per cycle of one core. */
  function PerCoreCycle(instructions: int, cycles: int, cores: int): real
    requires cycles * cores != 0
  {
    instructions as real / (cycles * cores) as real
  }

  function Aggregate(es: seq<Entry>, a: Args, c: Corner): Option<CornerEntry> {
    if es == [] || TotalCycles(es) * a.cores == 0 || TotalEnergy(es) == 0.0 then None
    else
      var power := MaxPower(es);
      Some(CornerEntry(
             c.name, FrequencyOf(a, c), TotalCycles(es), TotalInstructions(es),
             PerCoreCycle(TotalInstructions(es), TotalCycles(es), a.cores),
             power, a.ambientC + power * 9.5 * c.thermalResistanceScale,
             TotalInstructions(es) as real / TotalEnergy(es), es))
  }

  const NOMINAL := "14a_tt_0p70v_25c_frontside_pdn"

  datatype Report = Report(
    nominal: CornerEntry, mpki: real, cornerCount: nat,
    worstName: string, worstIpc: real, worstFrequencyHz: int, worstPowerW: real, worstDieTempC: real,
    corners: seq<CornerEntry>)

  datatype Outcome = Refused | Raised | Modeled(report: Report)

  /** First position with the least aggregate IPC. */
  function FirstWorst(cs: seq<CornerEntry>): (k: nat)
    requires cs != []
    ensures k < |cs|
    ensures forall j :: 0 <= j < |cs| ==> cs[k].ipc <= cs[j].ipc
    ensures forall j :: 0 <= j < k ==> cs[k].ipc < cs[j].ipc
  {
    if |cs| == 1 then 0
    else
      var rest := FirstWorst(cs[1..]);
      assert forall j :: 1 <= j < |cs| ==> cs[j] == cs[1..][j - 1];
      if cs[0].ipc <= cs[rest + 1].ipc then 0 else rest + 1
  }

  function MaxOf(cs: seq<CornerEntry>, f: CornerEntry -> real): (m: real)
    requires cs != []
    ensures forall j :: 0 <= j < |cs| ==> f(cs[j]) <= m
    ensures exists j :: 0 <= j < |cs| && f(cs[j]) == m
  {
    if |cs| == 1 then f(cs[0])
    else
      var rest := MaxOf(cs[1..], f);
      assert forall j :: 1 <= j < |cs| ==> cs[j] == cs[1..][j - 1];
      if f(cs[0]) > rest then f(cs[0]) else rest
  }

  function FirstNominal(cs: seq<CornerEntry>): Option<CornerEntry> {
    if cs == [] then None else if cs[0].name == NOMINAL then Some(cs[0]) else FirstNominal(cs[1..])
  }

  /** Workloads of the last nominal corner: the loop overwrites them. */
  function LastNominalWorkloads(cs: seq<CornerEntry>): seq<Entry> {
    if cs == [] then []
    else
      var last := cs[|cs| - 1];
      if last.name == NOMINAL then last.workloads else LastNominalWorkloads(cs[..|cs| - 1])
  }

  lemma NoneNominal()
    ensures LastNominalWorkloads([]) == []
  {
  }

  lemma LastNominalAppend(cs: seq<CornerEntry>, c: CornerEntry)
    ensures LastNominalWorkloads(cs + [c]) == if c.name == NOMINAL then c.workloads else LastNominalWorkloads(cs)
  {
    assert (cs + [c])[..|cs|] == cs;
  }

  function CornerList(workloads: seq<Workload>, corners: seq<Corner>, a: Args): seq<Option<CornerEntry>> {
    seq(|corners|, i requires 0 <= i < |corners| => CornerOf(workloads, a, corners[i]))
  }

  function Summary(cs: seq<CornerEntry>, all: seq<Entry>): Outcome {
    match FirstNominal(cs)
    case None => Raised
    case Some(nominal) =>
      if cs == [] || all == [] then Raised
      else
        var worst := cs[FirstWorst(cs)];
        Modeled(Report(nominal, TotalMpki(all) / |all| as real, |cs|, worst.name, worst.ipc, worst.frequencyHz,
                       MaxOf(cs, (c: CornerEntry) => c.powerW), MaxOf(cs, (c: CornerEntry) => c.dieTempC), cs))
  }

  function Model(workloads: seq<Workload>, corners: seq<Corner>, a: Args): Outcome {
    if a.cores <= 0 || a.baseFrequencyHz <= 0 || a.basePowerW <= 0.0 then Refused
    else
      match AllSome(CornerList(workloads, corners, a))
      case None => Raised
      case Some(cs) => Summary(cs, LastNominalWorkloads(cs))
  }

  method ModeledCorner(workloads: seq<Workload>, a: Args, c: Corner) returns (r: Option<CornerEntry>)
    ensures r == CornerOf(workloads, a, c)
  {
    var es := ModeledWorkloadEntries(workloads, a, c);
    r := if es.None? then None else Aggregate(es.value, a, c);
  }

  /** The loop of `modeled_14a_cpu_ap`; it remembers the workloads of the last nominal corner. */
  method ModeledCorners(workloads: seq<Workload>, corners: seq<Corner>, a: Args)
    returns (entries: Option<seq<CornerEntry>>, nominalWorkloads: seq<Entry>)
    ensures entries == AllSome(CornerList(workloads, corners, a))
    ensures entries.Some? ==> nominalWorkloads == LastNominalWorkloads(entries.value)
  {
    hide CornerOf, LastNominalWorkloads;
    NoneNominal();
    ghost var wanted := CornerList(workloads, corners, a);
    var done: seq<CornerEntry> := [];
    nominalWorkloads := [];
    for i := 0 to |corners|
      invariant AllSome(wanted[..i]) == Some(done)
      invariant nominalWorkloads == LastNominalWorkloads(done)
    {
      assert wanted[..i + 1][..i] == wanted[..i];
      var entry := ModeledCorner(workloads, a, corners[i]);
      assert entry == wanted[i];
      if entry.None? {
        return None, [];
      }
      LastNominalAppend(done, entry.value);
      done := done + [entry.value];
      if entry.value.name == NOMINAL {
        nominalWorkloads := entry.value.workloads;
      }
    }
    assert wanted[..|corners|] == wanted;
    entries := Some(done);
  }

  method ModeledCpu(workloads: seq<Workload>, corners: seq<Corner>, a: Args) returns (r: Outcome)
    ensures r == Model(workloads, corners, a)
  {
    if a.cores <= 0 || a.baseFrequencyHz <= 0 || a.basePowerW <= 0.0 {
      return Refused;
    }
    var entries, nominalWorkloads := ModeledCorners(workloads, corners, a);
    if entries.None? {
      return Raised;
    }
    r := Summary(entries.value, nominalWorkloads);
  }

  // ---------- physical inputs ----------

  /** What the instruction rate needs, whatever the power model says. */
  ghost predicate Rated(w: Workload, a: Args, c: Corner) {
    w.baseIpc > 0.0 && c.ipcDerate > 0.0 && a.cores > 0
  }

  ghost predicate AllRated(workloads: seq<Workload>, a: Args, c: Corner) {
    c.ipcDerate > 0.0 && a.cores > 0 && forall w :: w in workloads ==> w.baseIpc > 0.0
  }

  ghost predicate PhysicalWorkload(w: Workload) {
    w.baseIpc > 0.0 && w.activity >= 0.0
  }

  ghost predicate PhysicalCorner(c: Corner) {
    c.frequencyDerate > 0.0 && c.ipcDerate > 0.0 && c.dynamicPowerScale >= 0.0 && c.leakagePowerScale > 0.0
  }

  ghost predicate Guarded(a: Args) {
    a.cores > 0 && a.baseFrequencyHz > 0 && a.basePowerW > 0.0
  }

  ghost predicate Physical(workloads: seq<Workload>, a: Args, c: Corner) {
    && (forall w :: w in workloads ==> PhysicalWorkload(w))
    && PhysicalCorner(c) && Guarded(a)
  }

  lemma Positive3(x: real, y: real, z: real)
    requires x > 0.0 && y > 0.0 && z > 0.0
    ensures x * y * z > 0.0
  {
    assert x * y > 0.0;
  }

  lemma RatePositive(w: Workload, a: Args, c: Corner)
    requires Rated(w, a, c)
    ensures Rate(w, a, c) > 0.0
  {
    Positive3(w.baseIpc, c.ipcDerate, a.cores as real);
  }

  lemma PowerPositive(base: real, activity: real, dynamic: real, leakage: real)
    requires base > 0.0 && activity >= 0.0 && dynamic >= 0.0 && leakage > 0.0
    ensures base * activity * dynamic + base * 0.18 * leakage > 0.0
  {
    assert base * activity >= 0.0;
    assert base * activity * dynamic >= 0.0;
    Positive3(base, 0.18, leakage);
  }

  lemma LessTimes(x: real, y: real, d: real)
    requires x < y && d > 0.0
    ensures x * d < y * d
  {
  }

  lemma FloorBounds(q: real, n: real, rate: real, k: int)
    requires rate > 0.0 && q >= 0.0 && q * rate == n && k == Trunc(q)
    ensures k >= 0 && k as real * rate <= n
    ensures n < (k as real + 1.0) * rate
  {
    var low: real, high: real := k as real, k as real + 1.0;
    assert low <= q < high;
    NotLess(low, q, rate);
    LessTimes(q, high, rate);
    assert q * rate < high * rate;
    assert n < high * rate;
    assert high * rate == (k as real + 1.0) * rate;
  }

  lemma FloorOfQuotient(n: nat, rate: real)
    requires rate > 0.0
    ensures var k := Trunc(n as real / rate);
            k >= 0 && k as real * rate <= n as real < (k as real + 1.0) * rate
  {
    var q := n as real / rate;
    assert q * rate == n as real;
    QuotientNonNegative(n as real, rate);
    FloorBounds(q, n as real, rate, Trunc(q));
  }

  lemma FrequencyNonNegative(a: Args, c: Corner)
    requires PhysicalCorner(c) && Guarded(a)
    ensures FrequencyOf(a, c) >= 0
  {
    assert a.baseFrequencyHz as real * c.frequencyDerate >= 0.0;
  }

  lemma EntryDefined(w: Workload, a: Args, c: Corner)
    requires PhysicalWorkload(w) && PhysicalCorner(c) && Guarded(a)
    ensures EntryOf(w, a, c).Some? <==> FrequencyOf(a, c) >= 1
  {
    RatePositive(w, a, c);
    FrequencyNonNegative(a, c);
  }

  lemma CyclesReached(k: int, rate: real, n: nat)
    requires rate > 0.0 && k >= 0 && k as real * rate <= n as real < (k as real + 1.0) * rate
    ensures k >= 1 <==> rate <= n as real
  {
    if k >= 1 {
      NotLess(1.0, k as real, rate);
    } else {
      assert k as real + 1.0 == 1.0;
    }
  }

  lemma NotLess(x: real, y: real, d: real)
    requires x <= y && d >= 0.0
    ensures x * d <= y * d
  {
  }

  /** The floored cycle count: how it bounds the instructions, and when it is positive. */
  lemma EntryCycles(w: Workload, a: Args, c: Corner)
    requires Rated(w, a, c) && EntryOf(w, a, c).Some?
    ensures var e := EntryOf(w, a, c).value;
            && e.targetCycles >= 0 && e.instructions == w.instructions && e.ipc == w.baseIpc * c.ipcDerate
            && (e.targetCycles >= 1 <==> Rate(w, a, c) <= w.instructions as real)
            && e.targetCycles as real * Rate(w, a, c) <= w.instructions as real < (e.targetCycles as real + 1.0) * Rate(w, a, c)
  {
    RatePositive(w, a, c);
    FloorOfQuotient(w.instructions, Rate(w, a, c));
    CyclesReached(Trunc(w.instructions as real / Rate(w, a, c)), Rate(w, a, c), w.instructions);
  }

  // ---------- whole corners ----------

  ghost predicate EntriesFor(es: seq<Entry>, workloads: seq<Workload>, a: Args, c: Corner) {
    |es| == |workloads|
    && forall i {:trigger EntryOf(workloads[i], a, c)} :: 0 <= i < |es| ==> EntryOf(workloads[i], a, c) == Some(es[i])
  }

  lemma EntriesMean(workloads: seq<Workload>, a: Args, c: Corner)
    ensures var r := AllSome(EntryList(workloads, a, c));
            && (r.Some? <==> forall w :: w in workloads ==> EntryOf(w, a, c).Some?)
            && (r.Some? ==> EntriesFor(r.value, workloads, a, c))
  {
    var list := EntryList(workloads, a, c);
    if forall w :: w in workloads ==> EntryOf(w, a, c).Some? {
      assert forall i :: 0 <= i < |list| ==> workloads[i] in workloads;
    } else {
      var w :| w in workloads && EntryOf(w, a, c).None?;
      var i :| 0 <= i < |workloads| && workloads[i] == w;
      assert list[i] == None;
    }
  }

  lemma {:induction false} CyclesZero(es: seq<Entry>)
    requires forall e :: e in es ==> e.targetCycles >= 0
    ensures TotalCycles(es) >= 0
    ensures TotalCycles(es) == 0 <==> forall e :: e in es ==> e.targetCycles == 0
  {
    if es != [] {
      assert es[0] in es;
      CyclesZero(es[1..]);
      assert es == [es[0]] + es[1..];
    }
  }

  lemma EnergySign(p: real, n: real, f: real)
    requires p > 0.0 && n >= 0.0 && f > 0.0
    ensures p * (n / f) >= 0.0 && (p * (n / f) == 0.0 <==> n == 0.0)
  {
    if n == 0.0 {
      assert n / f == 0.0;
    } else {
      QuotientPositive(n, f);
      ProductPositive(p, n / f);
    }
  }

  lemma EnergyAtMost(p: real, n: real, f: real, power: real)
    requires p <= power && n >= 0.0 && f > 0.0
    ensures f * (p * (n / f)) <= power * n
  {
    var t := n / f;
    assert t * f == n;
    assert f * (p * t) == p * (t * f);
    NotLess(p, power, n);
  }

  lemma QuotientPositive(n: real, f: real)
    requires n > 0.0 && f > 0.0
    ensures n / f > 0.0
  {
  }

  lemma ProductPositive(x: real, y: real)
    requires x > 0.0 && y > 0.0
    ensures x * y > 0.0
  {
  }

  /** Energy is never negative, and zero only for an entry without cycles. */
  ghost predicate Signed(e: Entry) {
    e.targetCycles >= 0 && e.energyJ >= 0.0 && (e.energyJ == 0.0 <==> e.targetCycles == 0)
  }

  /** The energy is at most what `power` spends over the entry's cycles. */
  ghost predicate Metered(e: Entry, frequency: real, power: real) {
    frequency * e.energyJ <= power * e.targetCycles as real
  }

  lemma EntrySigned(w: Workload, a: Args, c: Corner)
    requires PhysicalWorkload(w) && PhysicalCorner(c) && Guarded(a) && EntryOf(w, a, c).Some?
    ensures Signed(EntryOf(w, a, c).value)
  {
    EntryDefined(w, a, c);
    EntryCycles(w, a, c);
    PowerPositive(a.basePowerW, w.activity, c.dynamicPowerScale, c.leakagePowerScale);
    var e := EntryOf(w, a, c).value;
    EnergySign(e.powerW, e.targetCycles as real, FrequencyOf(a, c) as real);
  }

  lemma EntryMetered(w: Workload, a: Args, c: Corner, frequency: real, power: real)
    requires PhysicalWorkload(w) && PhysicalCorner(c) && Guarded(a) && EntryOf(w, a, c).Some?
    requires EntryOf(w, a, c).value.powerW <= power && frequency == FrequencyOf(a, c) as real
    ensures Metered(EntryOf(w, a, c).value, frequency, power)
  {
    EntryDefined(w, a, c);
    EntryCycles(w, a, c);
    var e := EntryOf(w, a, c).value;
    EnergyAtMost(e.powerW, e.targetCycles as real, frequency, power);
  }

  lemma Distribute(x: real, y: real, u: real)
    ensures (x + y) * u == x * u + y * u && u * (x + y) == u * x + u * y
  {
  }

  lemma {:induction false} SignedTotals(es: seq<Entry>)
    requires forall e :: e in es ==> Signed(e)
    ensures TotalCycles(es) >= 0 && TotalEnergy(es) >= 0.0 && (TotalEnergy(es) == 0.0 <==> TotalCycles(es) == 0)
  {
    if es != [] {
      assert Signed(es[0]) by {
        assert es[0] in es;
      }
      assert forall e :: e in es[1..] ==> e in es;
      SignedTotals(es[1..]);
    }
  }

  lemma {:induction false} EnergyTotals(es: seq<Entry>, frequency: real, power: real)
    requires forall e :: e in es ==> Metered(e, frequency, power)
    ensures frequency * TotalEnergy(es) <= power * TotalCycles(es) as real
  {
    if es == [] {
      assert frequency * 0.0 == 0.0 && power * 0.0 == 0.0;
    } else {
      assert Metered(es[0], frequency, power);
      EnergyTotals(es[1..], frequency, power);
      AddMetered(frequency, power, es[0].energyJ, TotalEnergy(es[1..]), es[0].targetCycles as real, TotalCycles(es[1..]) as real);
    }
  }

  lemma AddMetered(f: real, p: real, x: real, y: real, m: real, n: real)
    requires f * x <= p * m && f * y <= p * n
    ensures f * (x + y) <= p * (m + n)
  {
    Distribute(x, y, f);
    Distribute(m, n, p);
  }

  lemma AllSigned(es: seq<Entry>, workloads: seq<Workload>, a: Args, c: Corner)
    requires Physical(workloads, a, c) && EntriesFor(es, workloads, a, c)
    ensures forall e :: e in es ==> Signed(e)
  {
    forall e | e in es
      ensures Signed(e)
    {
      var i :| 0 <= i < |es| && es[i] == e;
      assert workloads[i] in workloads;
      EntrySigned(workloads[i], a, c);
    }
  }

  lemma AllMetered(es: seq<Entry>, workloads: seq<Workload>, a: Args, c: Corner, frequency: real, power: real)
    requires Physical(workloads, a, c) && EntriesFor(es, workloads, a, c) && frequency == FrequencyOf(a, c) as real
    requires forall e :: e in es ==> e.powerW <= power
    ensures forall e :: e in es ==> Metered(e, frequency, power)
  {
    forall e | e in es
      ensures Metered(e, frequency, power)
    {
      var i :| 0 <= i < |es| && es[i] == e;
      assert workloads[i] in workloads;
      EntryMetered(workloads[i], a, c, frequency, power);
    }
  }

  /** The totals of a corner that is computed as far as its entries. */
  lemma CornerSigns(es: seq<Entry>, workloads: seq<Workload>, a: Args, c: Corner)
    requires Physical(workloads, a, c) && EntriesFor(es, workloads, a, c)
    ensures TotalCycles(es) >= 0 && TotalEnergy(es) >= 0.0 && (TotalEnergy(es) == 0.0 <==> TotalCycles(es) == 0)
  {
    AllSigned(es, workloads, a, c);
    SignedTotals(es);
  }

  lemma CornerEnergy(es: seq<Entry>, workloads: seq<Workload>, a: Args, c: Corner, frequency: real, power: real)
    requires Physical(workloads, a, c) && EntriesFor(es, workloads, a, c) && frequency == FrequencyOf(a, c) as real
    requires forall e :: e in es ==> e.powerW <= power
    ensures frequency * TotalEnergy(es) <= power * TotalCycles(es) as real
  {
    AllMetered(es, workloads, a, c, frequency, power);
    EnergyTotals(es, frequency, power);
  }

  lemma AllCounted(es: seq<Entry>, workloads: seq<Workload>, a: Args, c: Corner)
    requires Physical(workloads, a, c) && EntriesFor(es, workloads, a, c)
    ensures forall i :: 0 <= i < |es| ==>
              && es[i].targetCycles >= 0
              && (es[i].targetCycles >= 1 <==> Rate(workloads[i], a, c) <= workloads[i].instructions as real)
  {
    forall i | 0 <= i < |es|
      ensures es[i].targetCycles >= 0
      ensures es[i].targetCycles >= 1 <==> Rate(workloads[i], a, c) <= workloads[i].instructions as real
    {
      assert workloads[i] in workloads;
      EntryCycles(workloads[i], a, c);
    }
  }

  lemma CornerCycles(es: seq<Entry>, workloads: seq<Workload>, a: Args, c: Corner)
    requires Physical(workloads, a, c) && EntriesFor(es, workloads, a, c)
    ensures TotalCycles(es) >= 0
    ensures TotalCycles(es) > 0 <==> exists w :: w in workloads && Rate(w, a, c) <= w.instructions as real
  {
    AllCounted(es, workloads, a, c);
    forall e | e in es
      ensures e.targetCycles >= 0
    {
      var i :| 0 <= i < |es| && es[i] == e;
    }
    CyclesZero(es);
    SomeCycles(es, workloads, a, c);
  }

  lemma SomeCycles(es: seq<Entry>, workloads: seq<Workload>, a: Args, c: Corner)
    requires |es| == |workloads| && forall e :: e in es ==> e.targetCycles >= 0
    requires forall i :: 0 <= i < |es| ==>
               (es[i].targetCycles >= 1 <==> Rate(workloads[i], a, c) <= workloads[i].instructions as real)
    ensures (exists e :: e in es && e.targetCycles != 0) <==>
            exists w :: w in workloads && Rate(w, a, c) <= w.instructions as real
  {
    if e :| e in es && e.targetCycles != 0 {
      var i :| 0 <= i < |es| && es[i] == e;
      assert workloads[i] in workloads;
    }
    if w :| w in workloads && Rate(w, a, c) <= w.instructions as real {
      var i :| 0 <= i < |workloads| && workloads[i] == w;
      assert es[i] in es;
    }
  }

  ghost predicate CornerSafe(workloads: seq<Workload>, a: Args, c: Corner) {
    FrequencyOf(a, c) >= 1 && exists w :: w in workloads && Rate(w, a, c) <= w.instructions as real
  }

  /**
   Division safety: for physical workloads and guarded arguments, a corner is computed without any
   division by zero exactly when its floored frequency is at least 1 and some workload has at least
   as many instructions as all cores retire in one cycle.
   */
  lemma DivisionSafety(workloads: seq<Workload>, a: Args, c: Corner)
    requires Physical(workloads, a, c)
    ensures CornerOf(workloads, a, c).Some? <==> CornerSafe(workloads, a, c)
  {
    EntriesMean(workloads, a, c);
    forall w | w in workloads
      ensures EntryOf(w, a, c).Some? <==> FrequencyOf(a, c) >= 1
    {
      EntryDefined(w, a, c);
    }
    var r := AllSome(EntryList(workloads, a, c));
    if r.Some? && r.value != [] {
      assert workloads[0] in workloads;
      CornerSigns(r.value, workloads, a, c);
      CornerCycles(r.value, workloads, a, c);
      NonZeroProduct(TotalCycles(r.value), a.cores);
    }
  }

  lemma NonZeroProduct(x: int, y: int)
    requires y > 0
    ensures x * y == 0 <==> x == 0
    ensures x > 0 ==> x * y > 0
  {
  }

  /** The guards alone do not suffice: one hertz passes them, and the slow corner then divides by zero. */
  lemma GuardsDoNotSuffice(workloads: seq<Workload>)
    requires workloads != []
    ensures var a := Args(2, 1, 3.2, 25.0);
            var slow := Corner("14a_ss_0p63v_105c_frontside_pdn", 0.72, 0.90, 0.81, 1.85, 1.25);
            Guarded(a) && PhysicalCorner(slow) && CornerOf(workloads, a, slow) == None
  {
    var a := Args(2, 1, 3.2, 25.0);
    var slow := Corner("14a_ss_0p63v_105c_frontside_pdn", 0.72, 0.90, 0.81, 1.85, 1.25);
    assert (1 as real * 0.72).Floor == 0;
    assert FrequencyOf(a, slow) == 0;
    assert EntryList(workloads, a, slow)[0] == None;
  }

  // ---------- aggregate bounds ----------

  lemma EntryAtLeast(w: Workload, a: Args, c: Corner, low: real)
    requires Rated(w, a, c) && EntryOf(w, a, c).Some?
    requires low <= w.baseIpc * c.ipcDerate
    ensures AtLeast(EntryOf(w, a, c).value, low, a.cores)
  {
    EntryCycles(w, a, c);
    NotLess(low, w.baseIpc * c.ipcDerate, a.cores as real);
    Scale(low * a.cores as real, Rate(w, a, c), EntryOf(w, a, c).value.targetCycles as real);
  }

  lemma EntryBelow(w: Workload, a: Args, c: Corner, high: real)
    requires Rated(w, a, c) && EntryOf(w, a, c).Some?
    requires w.baseIpc * c.ipcDerate <= high
    ensures Below(EntryOf(w, a, c).value, high, a.cores)
  {
    EntryCycles(w, a, c);
    NotLess(w.baseIpc * c.ipcDerate, high, a.cores as real);
    Scale(Rate(w, a, c), high * a.cores as real, EntryOf(w, a, c).value.targetCycles as real + 1.0);
  }

  lemma Scale(x: real, y: real, k: real)
    requires x <= y && k >= 0.0
    ensures k * x <= k * y
  {
  }

  /** The floored cycles account for no more instructions than were run, at `ipc` instructions a core and cycle. */
  ghost predicate AtLeast(e: Entry, ipc: real, cores: int) {
    e.targetCycles as real * (ipc * cores as real) <= e.instructions as real
  }

  /** One more cycle would account for more than were run. */
  ghost predicate Below(e: Entry, ipc: real, cores: int) {
    e.instructions as real < (e.targetCycles as real + 1.0) * (ipc * cores as real)
  }

  lemma AddProducts(x: real, y: real, unit: real, m: real, n: real)
    ensures x * unit <= m && y * unit <= n ==> (x + y) * unit <= m + n
    ensures m < x * unit && n < y * unit ==> m + n < (x + y) * unit
  {
    Distribute(x, y, unit);
  }

  lemma {:induction false} InstructionsAtLeast(es: seq<Entry>, ipc: real, cores: int)
    requires forall e :: e in es ==> AtLeast(e, ipc, cores)
    ensures TotalCycles(es) as real * (ipc * cores as real) <= TotalInstructions(es) as real
  {
    var unit := ipc * cores as real;
    if es == [] {
      assert 0.0 * unit == 0.0;
    } else {
      assert AtLeast(es[0], ipc, cores);
      InstructionsAtLeast(es[1..], ipc, cores);
      AddProducts(es[0].targetCycles as real, TotalCycles(es[1..]) as real, unit, es[0].instructions as real, TotalInstructions(es[1..]) as real);
    }
  }

  lemma {:induction false} InstructionsBelow(es: seq<Entry>, ipc: real, cores: int)
    requires es != [] && forall e :: e in es ==> Below(e, ipc, cores)
    ensures (TotalInstructions(es) as real) < (TotalCycles(es) as real + |es| as real) * (ipc * cores as real)
  {
    assert Below(es[0], ipc, cores);
    if |es| == 1 {
      assert es[1..] == [];
    } else {
      var rest := es[1..];
      InstructionsBelow(rest, ipc, cores);
      AddProducts(es[0].targetCycles as real + 1.0, TotalCycles(rest) as real + |rest| as real, ipc * cores as real,
                  es[0].instructions as real, TotalInstructions(rest) as real);
    }
  }

  lemma LessByFactor(x: real, y: real, d: real)
    requires d > 0.0 && x * d < y * d
    ensures x < y
  {
  }

  lemma NotMoreByFactor(x: real, y: real, d: real)
    requires d > 0.0 && x * d <= y * d
    ensures x <= y
  {
  }

  lemma QuotientAtLeast(total: real, cycles: real, cores: real, low: real)
    requires cycles > 0.0 && cores > 0.0 && cycles * (low * cores) <= total
    ensures low <= total / (cycles * cores)
  {
    var d := cycles * cores;
    assert d > 0.0;
    var q := total / d;
    assert q * d == total;
    assert low * d == cycles * (low * cores);
    NotMoreByFactor(low, q, d);
  }

  lemma QuotientBelow(total: real, cycles: real, cores: real, high: real, n: real)
    requires cycles > 0.0 && cores > 0.0 && total < (cycles + n) * (high * cores)
    ensures total / (cycles * cores) < high * (1.0 + n / cycles)
  {
    var d := cycles * cores;
    assert d > 0.0;
    var q := total / d;
    assert q * d == total;
    var r := 1.0 + n / cycles;
    assert r * cycles == cycles + n by {
      assert (n / cycles) * cycles == n;
    }
    Regroup(high, r, cycles, cores);
    LessByFactor(q, high * r, d);
  }

  lemma Regroup(h: real, r: real, k: real, c: real)
    ensures (h * r) * (k * c) == (r * k) * (h * c)
  {
    assert (h * r) * (k * c) == h * (r * (k * c));
    assert r * (k * c) == (r * k) * c;
    assert h * ((r * k) * c) == (r * k) * (h * c);
  }

  lemma PerCoreCycleAsReals(n: int, cycles: int, cores: int)
    requires cycles > 0 && cores > 0
    ensures cycles * cores != 0 && cycles as real * cores as real > 0.0
    ensures PerCoreCycle(n, cycles, cores) == n as real / (cycles as real * cores as real)
  {
    NonZeroProduct(cycles, cores);
    ProductAsReal(cycles, cores);
  }

  /** What a computed corner is made of, as far as instructions and cycles go. */
  lemma CornerTimes(workloads: seq<Workload>, a: Args, c: Corner) returns (es: seq<Entry>)
    requires AllRated(workloads, a, c) && CornerOf(workloads, a, c).Some?
    ensures EntriesFor(es, workloads, a, c) && es != [] && TotalCycles(es) > 0
    ensures CornerOf(workloads, a, c) == Aggregate(es, a, c) && Aggregate(es, a, c).Some? && |es| == |workloads| && a.cores > 0
  {
    EntriesMean(workloads, a, c);
    es := AllSome(EntryList(workloads, a, c)).value;
    forall e | e in es
      ensures e.targetCycles >= 0
    {
      var i :| 0 <= i < |es| && es[i] == e;
      assert workloads[i] in workloads;
      EntryCycles(workloads[i], a, c);
    }
    CyclesZero(es);
    NonZeroProduct(TotalCycles(es), a.cores);
  }

  /** What a computed corner is made of. */
  lemma CornerParts(workloads: seq<Workload>, a: Args, c: Corner) returns (es: seq<Entry>)
    requires Physical(workloads, a, c) && CornerOf(workloads, a, c).Some?
    ensures EntriesFor(es, workloads, a, c) && es != [] && TotalCycles(es) > 0 && TotalEnergy(es) > 0.0
    ensures CornerOf(workloads, a, c) == Aggregate(es, a, c) && Aggregate(es, a, c).Some? && |es| == |workloads| && a.cores > 0
  {
    EntriesMean(workloads, a, c);
    es := AllSome(EntryList(workloads, a, c)).value;
    CornerSigns(es, workloads, a, c);
    NonZeroProduct(TotalCycles(es), a.cores);
  }

  /** The figures that a corner reports. */
  lemma AggregateFigures(es: seq<Entry>, a: Args, c: Corner)
    requires Aggregate(es, a, c).Some?
    ensures es != [] && TotalCycles(es) * a.cores != 0 && TotalEnergy(es) != 0.0
    ensures var r := Aggregate(es, a, c).value;
            && r.targetCycles == TotalCycles(es) && r.frequencyHz == FrequencyOf(a, c) && r.powerW == MaxPower(es)
            && r.ipc == PerCoreCycle(TotalInstructions(es), TotalCycles(es), a.cores)
            && r.instructionsPerJoule == TotalInstructions(es) as real / TotalEnergy(es)
  {
  }

  lemma ProductAsReal(x: int, y: int)
    ensures (x * y) as real == x as real * y as real
  {
  }

  lemma AllBounded(es: seq<Entry>, workloads: seq<Workload>, a: Args, c: Corner, low: real, high: real)
    requires AllRated(workloads, a, c) && EntriesFor(es, workloads, a, c)
    requires forall w :: w in workloads ==> low <= w.baseIpc * c.ipcDerate <= high
    ensures forall e :: e in es ==> AtLeast(e, low, a.cores)
    ensures forall e :: e in es ==> Below(e, high, a.cores)
  {
    forall e | e in es
      ensures AtLeast(e, low, a.cores) && Below(e, high, a.cores)
    {
      var i :| 0 <= i < |es| && es[i] == e;
      assert workloads[i] in workloads;
      EntryAtLeast(workloads[i], a, c, low);
      EntryBelow(workloads[i], a, c, high);
    }
  }

  /** At least `low`, and below `high` by less than the share that flooring `n` counts can take of all cycles. */
  ghost predicate NearRange(ipc: real, low: real, high: real, n: nat, cycles: int)
    requires cycles > 0
  {
    low <= ipc < high * (1.0 + n as real / cycles as real)
  }

  /**
   Despite the flooring of cycle counts, a corner's aggregate IPC is at least the least workload IPC
   and below the greatest one by less than the factor 1 + n / cycles.
   */
  lemma AggregateBounds(workloads: seq<Workload>, a: Args, c: Corner, low: real, high: real)
    requires AllRated(workloads, a, c) && CornerOf(workloads, a, c).Some?
    requires forall w :: w in workloads ==> low <= w.baseIpc * c.ipcDerate <= high
    ensures var r := CornerOf(workloads, a, c).value;
            r.targetCycles > 0 && NearRange(r.ipc, low, high, |workloads|, r.targetCycles)
  {
    hide *;
    var es := CornerTimes(workloads, a, c);
    AggregateFigures(es, a, c);
    AllBounded(es, workloads, a, c, low, high);
    BoundedIpc(es, a.cores, low, high);
  }

  lemma BoundedIpc(es: seq<Entry>, cores: int, low: real, high: real)
    requires es != [] && TotalCycles(es) > 0 && cores > 0
    requires forall e :: e in es ==> AtLeast(e, low, cores)
    requires forall e :: e in es ==> Below(e, high, cores)
    ensures TotalCycles(es) * cores != 0
    ensures NearRange(PerCoreCycle(TotalInstructions(es), TotalCycles(es), cores), low, high, |es|, TotalCycles(es))
  {
    hide *;
    InstructionsAtLeast(es, low, cores);
    InstructionsBelow(es, high, cores);
    NearRangeOf(TotalInstructions(es), TotalCycles(es), cores, |es|, low, high);
  }

  lemma NearRangeOf(total: int, cycles: int, cores: int, n: nat, low: real, high: real)
    requires cycles > 0 && cores > 0
    requires cycles as real * (low * cores as real) <= total as real
    requires total as real < (cycles as real + n as real) * (high * cores as real)
    ensures cycles * cores != 0
    ensures NearRange(PerCoreCycle(total, cycles, cores), low, high, n, cycles)
  {
    QuotientAtLeast(total as real, cycles as real, cores as real, low);
    QuotientBelow(total as real, cycles as real, cores as real, high, n as real);
    PerCoreCycleAsReals(total, cycles, cores);
  }

  /** Energy: instructions per joule times the reported power is at least the aggregate instruction rate. */
  lemma EnergyBound(workloads: seq<Workload>, a: Args, c: Corner)
    requires Physical(workloads, a, c) && CornerOf(workloads, a, c).Some?
    ensures var r := CornerOf(workloads, a, c).value;
            r.instructionsPerJoule * r.powerW >= r.ipc * a.cores as real * r.frequencyHz as real
  {
    hide *;
    var es := CornerParts(workloads, a, c);
    AggregateFigures(es, a, c);
    var frequency, power: real := FrequencyOf(a, c) as real, MaxPower(es);
    CornerEnergy(es, workloads, a, c, frequency, power);
    InstructionRateBound(TotalInstructions(es), TotalEnergy(es), TotalCycles(es), a.cores, frequency, power);
  }

  lemma InstructionRateBound(n: nat, energy: real, cycles: int, cores: int, f: real, power: real)
    requires energy > 0.0 && cycles > 0 && cores > 0 && f * energy <= power * cycles as real
    ensures cycles * cores != 0
    ensures n as real / energy * power >= PerCoreCycle(n, cycles, cores) * cores as real * f
  {
    RateBound(n as real, energy, cycles as real, cores as real, f, power);
    PerCoreCycleAsReals(n, cycles, cores);
  }

  lemma RateBound(n: real, energy: real, cycles: real, cores: real, f: real, power: real)
    requires n >= 0.0 && energy > 0.0 && cycles > 0.0 && cores > 0.0 && f * energy <= power * cycles
    ensures n / energy * power >= n / (cycles * cores) * cores * f
  {
    var x, d := n / energy, cycles * cores;
    assert d > 0.0;
    var y := n / d;
    assert x * energy == n && y * d == n;
    var z := y * cores;
    assert z * cycles == n by {
      assert (y * cores) * cycles == y * (cycles * cores);
    }
    QuotientNonNegative(n, energy);
    Scale(f * energy, power * cycles, x);
    assert x * (f * energy) == (x * energy) * f;
    assert (z * f) * cycles == (z * cycles) * f;
    assert x * (power * cycles) == (x * power) * cycles;
    NotMoreByFactor(z * f, x * power, cycles);
  }

  lemma QuotientNonNegative(n: real, d: real)
    requires n >= 0.0 && d > 0.0
    ensures n / d >= 0.0
  {
  }

  // ---------- the worst corner ----------

  lemma QuotientAntitone(n: real, x: real, y: real)
    requires n >= 0.0 && 0.0 < x <= y
    ensures n / y <= n / x
  {
    var p, q := n / x, n / y;
    assert p * x == n && q * y == n;
    QuotientNonNegative(n, y);
    Scale(x, y, q);
    NotMoreByFactor(q, p, x);
  }

  lemma TruncMonotone(x: real, y: real)
    requires 0.0 <= x <= y
    ensures Trunc(x) <= Trunc(y)
  {
  }

  lemma RateMonotone(w: Workload, a: Args, c: Corner, d: Corner)
    requires w.baseIpc > 0.0 && a.cores > 0 && c.ipcDerate <= d.ipcDerate
    ensures Rate(w, a, c) <= Rate(w, a, d)
  {
    Scale(c.ipcDerate, d.ipcDerate, w.baseIpc);
    NotLess(w.baseIpc * c.ipcDerate, w.baseIpc * d.ipcDerate, a.cores as real);
  }

  lemma CyclesAntitone(w: Workload, a: Args, c: Corner, d: Corner)
    requires Rated(w, a, c) && Rated(w, a, d)
    requires c.ipcDerate <= d.ipcDerate && EntryOf(w, a, c).Some? && EntryOf(w, a, d).Some?
    ensures EntryOf(w, a, c).value.targetCycles >= EntryOf(w, a, d).value.targetCycles
    ensures EntryOf(w, a, c).value.instructions == EntryOf(w, a, d).value.instructions
  {
    RatePositive(w, a, c);
    RatePositive(w, a, d);
    RateMonotone(w, a, c, d);
    QuotientAntitone(w.instructions as real, Rate(w, a, c), Rate(w, a, d));
    QuotientNonNegative(w.instructions as real, Rate(w, a, d));
    TruncMonotone(w.instructions as real / Rate(w, a, d), w.instructions as real / Rate(w, a, c));
  }

  lemma {:induction false} TotalsCompared(es: seq<Entry>, fs: seq<Entry>)
    requires |es| == |fs|
    requires forall i :: 0 <= i < |es| ==> es[i].targetCycles >= fs[i].targetCycles && es[i].instructions == fs[i].instructions
    ensures TotalCycles(es) >= TotalCycles(fs) && TotalInstructions(es) == TotalInstructions(fs)
  {
    if es != [] {
      TotalsCompared(es[1..], fs[1..]);
    }
  }

  /** A corner with the smaller derating has the smaller aggregate IPC, whatever flooring does. */
  lemma DerateOrdersIpc(workloads: seq<Workload>, a: Args, c: Corner, d: Corner)
    requires AllRated(workloads, a, c) && AllRated(workloads, a, d) && c.ipcDerate <= d.ipcDerate
    requires CornerOf(workloads, a, c).Some? && CornerOf(workloads, a, d).Some?
    ensures CornerOf(workloads, a, c).value.ipc <= CornerOf(workloads, a, d).value.ipc
  {
    var es := CornerTimes(workloads, a, c);
    var fs := CornerTimes(workloads, a, d);
    AllAntitone(es, fs, workloads, a, c, d);
    TotalsCompared(es, fs);
    IpcsOrdered(es, fs, a, c, d);
  }

  lemma IpcsOrdered(es: seq<Entry>, fs: seq<Entry>, a: Args, c: Corner, d: Corner)
    requires Aggregate(es, a, c).Some? && Aggregate(fs, a, d).Some? && a.cores > 0
    requires 0 < TotalCycles(fs) <= TotalCycles(es) && TotalInstructions(es) == TotalInstructions(fs)
    ensures Aggregate(es, a, c).value.ipc <= Aggregate(fs, a, d).value.ipc
  {
    AggregateFigures(es, a, c);
    AggregateFigures(fs, a, d);
    PerCoreCycleOrdered(TotalInstructions(es), TotalCycles(fs), TotalCycles(es), a.cores);
  }

  lemma PerCoreCycleOrdered(n: nat, fewer: int, more: int, cores: int)
    requires 0 < fewer <= more && cores > 0
    ensures fewer * cores != 0 && more * cores != 0
    ensures PerCoreCycle(n, more, cores) <= PerCoreCycle(n, fewer, cores)
  {
    IpcOrdered(n as real, fewer as real, more as real, cores as real);
    PerCoreCycleAsReals(n, more, cores);
    PerCoreCycleAsReals(n, fewer, cores);
  }

  lemma AllAntitone(es: seq<Entry>, fs: seq<Entry>, workloads: seq<Workload>, a: Args, c: Corner, d: Corner)
    requires AllRated(workloads, a, c) && AllRated(workloads, a, d) && c.ipcDerate <= d.ipcDerate
    requires EntriesFor(es, workloads, a, c) && EntriesFor(fs, workloads, a, d)
    ensures forall i :: 0 <= i < |es| ==> es[i].targetCycles >= fs[i].targetCycles && es[i].instructions == fs[i].instructions
  {
    forall i | 0 <= i < |es|
      ensures es[i].targetCycles >= fs[i].targetCycles && es[i].instructions == fs[i].instructions
    {
      assert workloads[i] in workloads;
      CyclesAntitone(workloads[i], a, c, d);
    }
  }

  lemma IpcOrdered(n: real, fewer: real, more: real, cores: real)
    requires n >= 0.0 && 0.0 < fewer <= more && cores > 0.0
    ensures n / (more * cores) <= n / (fewer * cores)
  {
    ProductPositive(fewer, cores);
    NotLess(fewer, more, cores);
    QuotientAntitone(n, fewer * cores, more * cores);
  }

  /**
   The reported worst IPC is that of the corner with the smallest derating, for every workload list,
   corner list and core count that the model computes.
   */
  lemma WorstCornerByDerate(workloads: seq<Workload>, corners: seq<Corner>, a: Args, k: nat)
    requires k < |corners| && forall c :: c in corners ==> AllRated(workloads, a, c)
    requires forall c :: c in corners ==> corners[k].ipcDerate <= c.ipcDerate
    requires Model(workloads, corners, a).Modeled?
    ensures CornerOf(workloads, a, corners[k]).Some?
    ensures Model(workloads, corners, a).report.worstIpc == CornerOf(workloads, a, corners[k]).value.ipc
  {
    hide CornerOf, MaxOf, TotalMpki, Physical;
    var list := CornerList(workloads, corners, a);
    var cs := AllSome(list).value;
    assert list[k] == Some(cs[k]);
    var worst := FirstWorst(cs);
    assert list[worst] == Some(cs[worst]);
    assert corners[worst] in corners && corners[k] in corners;
    DerateOrdersIpc(workloads, a, corners[k], corners[worst]);
  }

  lemma CornersMean(workloads: seq<Workload>, corners: seq<Corner>, a: Args)
    ensures var r := AllSome(CornerList(workloads, corners, a));
            && (r.Some? <==> forall c :: c in corners ==> CornerOf(workloads, a, c).Some?)
            && (r.Some? ==> |r.value| == |corners|
                            && forall i :: 0 <= i < |corners| ==> CornerOf(workloads, a, corners[i]) == Some(r.value[i]))
  {
    var list := CornerList(workloads, corners, a);
    if forall c :: c in corners ==> CornerOf(workloads, a, c).Some? {
      assert forall i :: 0 <= i < |list| ==> corners[i] in corners;
    } else {
      var c :| c in corners && CornerOf(workloads, a, c).None?;
      var i :| 0 <= i < |corners| && corners[i] == c;
      assert list[i] == None;
    }
  }

  lemma NameAndWork(workloads: seq<Workload>, a: Args, c: Corner)
    requires CornerOf(workloads, a, c).Some?
    ensures CornerOf(workloads, a, c).value.name == c.name && CornerOf(workloads, a, c).value.workloads != []
  {
  }

  /** The whole model finishes exactly when every corner is safe and a nominal corner is listed. */
  lemma ModelSafety(workloads: seq<Workload>, corners: seq<Corner>, a: Args)
    requires Guarded(a) && forall c :: c in corners ==> Physical(workloads, a, c)
    ensures Model(workloads, corners, a).Modeled? <==>
            (exists c :: c in corners && c.name == NOMINAL) && forall c :: c in corners ==> CornerSafe(workloads, a, c)
  {
    hide CornerOf, CornerList, CornerSafe, Physical, Summary;
    AllSafe(workloads, corners, a);
    var r := AllSome(CornerList(workloads, corners, a));
    if r.Some? {
      NamesKept(workloads, corners, a, r.value);
      SummaryModeled(r.value);
      SameNames(corners, r.value);
    }
  }

  lemma AllSafe(workloads: seq<Workload>, corners: seq<Corner>, a: Args)
    requires forall c :: c in corners ==> Physical(workloads, a, c)
    ensures AllSome(CornerList(workloads, corners, a)).Some? <==> forall c :: c in corners ==> CornerSafe(workloads, a, c)
  {
    CornersMean(workloads, corners, a);
    forall c | c in corners
      ensures CornerOf(workloads, a, c).Some? <==> CornerSafe(workloads, a, c)
    {
      DivisionSafety(workloads, a, c);
    }
  }

  lemma NamesKept(workloads: seq<Workload>, corners: seq<Corner>, a: Args, cs: seq<CornerEntry>)
    requires AllSome(CornerList(workloads, corners, a)) == Some(cs)
    ensures |cs| == |corners| && forall i :: 0 <= i < |corners| ==> cs[i].name == corners[i].name && cs[i].workloads != []
  {
    CornersMean(workloads, corners, a);
    forall i | 0 <= i < |corners|
      ensures cs[i].name == corners[i].name && cs[i].workloads != []
    {
      NameAndWork(workloads, a, corners[i]);
    }
  }

  lemma SameNames(corners: seq<Corner>, cs: seq<CornerEntry>)
    requires |cs| == |corners| && forall i :: 0 <= i < |corners| ==> cs[i].name == corners[i].name
    ensures (exists e :: e in cs && e.name == NOMINAL) <==> exists c :: c in corners && c.name == NOMINAL
  {
    if c :| c in corners && c.name == NOMINAL {
      var i :| 0 <= i < |corners| && corners[i] == c;
      assert cs[i] in cs;
    }
    if e :| e in cs && e.name == NOMINAL {
      var i :| 0 <= i < |cs| && cs[i] == e;
      assert corners[i] in corners;
    }
  }

  lemma SummaryModeled(cs: seq<CornerEntry>)
    requires forall i :: 0 <= i < |cs| ==> cs[i].workloads != []
    ensures Summary(cs, LastNominalWorkloads(cs)).Modeled? <==> exists e :: e in cs && e.name == NOMINAL
  {
    hide *;
    SummaryNeeds(cs, LastNominalWorkloads(cs));
    NominalFound(cs);
  }

  lemma SummaryNeeds(cs: seq<CornerEntry>, all: seq<Entry>)
    ensures Summary(cs, all).Modeled? <==> FirstNominal(cs).Some? && all != []
  {
    hide MaxOf, FirstWorst, TotalMpki;
  }

  lemma NominalFound(cs: seq<CornerEntry>)
    requires forall i :: 0 <= i < |cs| ==> cs[i].workloads != []
    ensures FirstNominal(cs).Some? <==> exists e :: e in cs && e.name == NOMINAL
    ensures LastNominalWorkloads(cs) != [] <==> exists e :: e in cs && e.name == NOMINAL
  {
    FirstFound(cs);
    LastFound(cs);
  }

  lemma {:induction false} FirstFound(cs: seq<CornerEntry>)
    ensures FirstNominal(cs).Some? <==> exists e :: e in cs && e.name == NOMINAL
  {
    if cs != [] {
      FirstFound(cs[1..]);
      assert cs == [cs[0]] + cs[1..];
      assert cs[0] in cs;
    }
  }

  lemma {:induction false} LastFound(cs: seq<CornerEntry>)
    requires forall i :: 0 <= i < |cs| ==> cs[i].workloads != []
    ensures LastNominalWorkloads(cs) != [] <==> exists e :: e in cs && e.name == NOMINAL
  {
    if cs != [] {
      var n := |cs| - 1;
      LastFound(cs[..n]);
      assert cs == cs[..n] + [cs[n]];
      assert cs[n] in cs;
    }
  }
}
