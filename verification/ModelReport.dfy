/** What each figure of a modeled report is, in terms of the workloads, the corners and the arguments. */
module ModelReport {
  import opened Json
  import opened ArchMetrics

  /** `n` is `x` without its fraction, on the side of zero. */
  predicate Truncates(x: real, n: int) {
    if x >= 0.0 then n as real <= x < n as real + 1.0 else n as real - 1.0 < x <= n as real
  }

  lemma TruncIs(x: real)
    ensures Truncates(x, Trunc(x))
  {
  }

  // ---------- one workload at one corner ----------

  /** `q` is the quotient of `n` by `d`. */
  predicate Quotient(q: real, n: real, d: real) {
    d != 0.0 && q * d == n
  }

  /** The base frequency, derated and without its fraction. */
  predicate Derated(frequency: int, a: Args, c: Corner) {
    Truncates(a.baseFrequencyHz as real * c.frequencyDerate, frequency)
  }

  /** Dynamic and leakage power. */
  predicate Power(p: real, base: real, activity: real, dynamic: real, leakage: real) {
    p == (activity * dynamic + 0.18 * leakage) * base
  }

  /** The figures of a workload. */
  ghost predicate WorkFits(e: Entry, w: Workload, a: Args, c: Corner) {
    && e.instructions == w.instructions
    && Derated(e.frequencyHz, a, c)
    && e.ipc == w.baseIpc * c.ipcDerate
    && Quotient(e.mpki, w.mpki, c.ipcDerate)
    && (exists q: real :: Quotient(q, w.instructions as real, e.ipc * a.cores as real) && Truncates(q, e.targetCycles))
    && Quotient(e.elapsedSeconds, e.targetCycles as real, e.frequencyHz as real)
    && Power(e.powerW, a.basePowerW, w.activity, c.dynamicPowerScale, c.leakagePowerScale)
    && e.energyJ == e.powerW * e.elapsedSeconds
  }

  lemma QuotientOf(n: real, d: real)
    requires d != 0.0
    ensures Quotient(n / d, n, d)
  {
  }

  lemma PowerParts(base: real, activity: real, dynamic: real, leakage: real)
    ensures Power(base * activity * dynamic + base * 0.18 * leakage, base, activity, dynamic, leakage)
  {
    var x, y := activity * dynamic, 0.18 * leakage;
    assert base * activity * dynamic == x * base;
    assert base * 0.18 * leakage == y * base;
    assert (x + y) * base == x * base + y * base;
  }

  /** The entry, figure by figure. */
  lemma EntryParts(w: Workload, a: Args, c: Corner)
    requires EntryOf(w, a, c).Some?
    ensures Rate(w, a, c) != 0.0 && FrequencyOf(a, c) != 0 && c.ipcDerate != 0.0
    ensures Rate(w, a, c) == w.baseIpc * c.ipcDerate * a.cores as real
    ensures var e := EntryOf(w, a, c).value;
            && e.instructions == w.instructions && e.frequencyHz == FrequencyOf(a, c)
            && e.ipc == w.baseIpc * c.ipcDerate && e.mpki == w.mpki / c.ipcDerate
            && e.targetCycles == Trunc(w.instructions as real / Rate(w, a, c))
            && e.elapsedSeconds == e.targetCycles as real / e.frequencyHz as real
            && e.powerW == a.basePowerW * w.activity * c.dynamicPowerScale + a.basePowerW * 0.18 * c.leakagePowerScale
            && e.energyJ == e.powerW * e.elapsedSeconds
  {
    hide Trunc;
  }

  lemma FrequencyIs(a: Args, c: Corner)
    ensures FrequencyOf(a, c) == Trunc(a.baseFrequencyHz as real * c.frequencyDerate)
  {
  }

  lemma EffectiveFrequency(a: Args, c: Corner)
    ensures Derated(FrequencyOf(a, c), a, c)
  {
    TruncIs(a.baseFrequencyHz as real * c.frequencyDerate);
    FrequencyIs(a, c);
  }

  lemma EntryFits(w: Workload, a: Args, c: Corner)
    requires EntryOf(w, a, c).Some?
    ensures WorkFits(EntryOf(w, a, c).value, w, a, c)
  {
    EntryParts(w, a, c);
    EffectiveFrequency(a, c);
    var e, rate := EntryOf(w, a, c).value, Rate(w, a, c);
    hide EntryOf, Rate, FrequencyOf, Trunc, Truncates, Quotient, Power, Derated;
    var q := w.instructions as real / rate;
    TruncIs(q);
    QuotientOf(w.mpki, c.ipcDerate);
    QuotientOf(w.instructions as real, rate);
    QuotientOf(e.targetCycles as real, e.frequencyHz as real);
    PowerParts(a.basePowerW, w.activity, c.dynamicPowerScale, c.leakagePowerScale);
    assert Quotient(q, w.instructions as real, e.ipc * a.cores as real);
  }

  // ---------- one corner ----------

  /** A sum over entries, from the last one back. */
  function Sum(es: seq<Entry>, figure: Entry -> real): real {
    if es == [] then 0.0 else Sum(es[..|es| - 1], figure) + figure(es[|es| - 1])
  }

  function InstructionsOf(e: Entry): real {
    e.instructions as real
  }

  function CyclesOf(e: Entry): real {
    e.targetCycles as real
  }

  function EnergyOf(e: Entry): real {
    e.energyJ
  }

  function MpkiOf(e: Entry): real {
    e.mpki
  }

  lemma {:induction false} SumFront(es: seq<Entry>, figure: Entry -> real)
    requires es != []
    ensures Sum(es, figure) == figure(es[0]) + Sum(es[1..], figure)
  {
    var n := |es| - 1;
    if n == 0 {
      assert es[..0] == [] && es[1..] == [];
    } else {
      SumFront(es[..n], figure);
      assert es[..n][1..] == es[1..][..n - 1];
      assert es[1..][n - 1] == es[n];
    }
  }

  lemma {:induction false} TotalsAreSums(es: seq<Entry>)
    ensures TotalInstructions(es) as real == Sum(es, InstructionsOf) && TotalCycles(es) as real == Sum(es, CyclesOf)
    ensures TotalEnergy(es) == Sum(es, EnergyOf) && TotalMpki(es) == Sum(es, MpkiOf)
  {
    if es != [] {
      TotalsAreSums(es[1..]);
      SumFront(es, InstructionsOf);
      SumFront(es, CyclesOf);
      SumFront(es, EnergyOf);
      SumFront(es, MpkiOf);
    }
  }

  /** The die is warmer than its surroundings by 9.5 degrees a watt, scaled. */
  predicate Warmed(temperature: real, ambient: real, power: real, scale: real) {
    temperature - ambient == 9.5 * (power * scale)
  }

  /** Instructions shared out over the cycles of all cores. */
  predicate Shared(ipc: real, instructions: int, cycles: int, cores: int) {
    Quotient(ipc, instructions as real, (cycles * cores) as real)
  }

  lemma PerCore(ipc: real, instructions: int, cycles: int, cores: int)
    requires Quotient(ipc, instructions as real, (cycles * cores) as real)
    ensures Shared(ipc, instructions, cycles, cores)
  {
  }

  /** The aggregate figures of a corner: sums, the greatest power, and quotients. */
  ghost predicate FiguresFit(e: CornerEntry, a: Args, c: Corner) {
    var es := e.workloads;
    && e.name == c.name
    && Derated(e.frequencyHz, a, c)
    && e.instructions as real == Sum(es, InstructionsOf) && e.targetCycles as real == Sum(es, CyclesOf)
    && Shared(e.ipc, e.instructions, e.targetCycles, a.cores)
    && (exists i :: 0 <= i < |es| && e.powerW == es[i].powerW) && (forall i :: 0 <= i < |es| ==> es[i].powerW <= e.powerW)
    && Warmed(e.dieTempC, a.ambientC, e.powerW, c.thermalResistanceScale)
    && Quotient(e.instructionsPerJoule, e.instructions as real, Sum(es, EnergyOf))
  }

  ghost predicate CornerFits(e: CornerEntry, workloads: seq<Workload>, a: Args, c: Corner) {
    && |e.workloads| == |workloads| && (forall i :: 0 <= i < |workloads| ==> WorkFits(e.workloads[i], workloads[i], a, c))
    && FiguresFit(e, a, c)
  }

  lemma WarmedBy(ambient: real, power: real, scale: real)
    ensures Warmed(ambient + power * 9.5 * scale, ambient, power, scale)
  {
    assert power * 9.5 * scale == 9.5 * (power * scale);
  }

  lemma AggregateParts(es: seq<Entry>, a: Args, c: Corner)
    requires Aggregate(es, a, c).Some?
    ensures es != [] && TotalCycles(es) * a.cores != 0 && TotalEnergy(es) != 0.0
    ensures var e := Aggregate(es, a, c).value;
            && e.workloads == es && e.name == c.name && e.frequencyHz == FrequencyOf(a, c)
            && e.targetCycles == TotalCycles(es) && e.instructions == TotalInstructions(es)
            && e.ipc == TotalInstructions(es) as real / (TotalCycles(es) * a.cores) as real
            && e.powerW == MaxPower(es) && Warmed(e.dieTempC, a.ambientC, e.powerW, c.thermalResistanceScale)
            && e.instructionsPerJoule == TotalInstructions(es) as real / TotalEnergy(es)
  {
    WarmedBy(a.ambientC, MaxPower(es), c.thermalResistanceScale);
    hide FrequencyOf, TotalCycles, TotalInstructions, TotalEnergy;
  }

  lemma TopPower(es: seq<Entry>)
    requires es != []
    ensures exists i :: 0 <= i < |es| && MaxPower(es) == es[i].powerW
    ensures forall i :: 0 <= i < |es| ==> es[i].powerW <= MaxPower(es)
  {
    var p := MaxPower(es);
    assert exists e :: e in es && e.powerW == p;
    var top :| top in es && top.powerW == p;
    var k :| 0 <= k < |es| && es[k] == top;
    assert forall i :: 0 <= i < |es| ==> es[i] in es;
  }

  lemma NonZeroReal(n: int)
    requires n != 0
    ensures n as real != 0.0
  {
  }

  lemma AggregateFits(es: seq<Entry>, a: Args, c: Corner)
    requires Aggregate(es, a, c).Some?
    ensures Aggregate(es, a, c).value.workloads == es && FiguresFit(Aggregate(es, a, c).value, a, c)
  {
    hide Aggregate, MaxPower, TotalCycles, TotalInstructions, TotalEnergy, Sum, Truncates, Trunc, FrequencyOf, Quotient, Warmed, Derated, Shared;
    AggregateParts(es, a, c);
    TotalsAreSums(es);
    TopPower(es);
    EffectiveFrequency(a, c);
    NonZeroReal(TotalCycles(es) * a.cores);
    QuotientOf(TotalInstructions(es) as real, TotalEnergy(es));
    QuotientOf(TotalInstructions(es) as real, (TotalCycles(es) * a.cores) as real);
    PerCore(Aggregate(es, a, c).value.ipc, TotalInstructions(es), TotalCycles(es), a.cores);
  }

  lemma CornerIsFit(workloads: seq<Workload>, a: Args, c: Corner)
    requires CornerOf(workloads, a, c).Some?
    ensures CornerFits(CornerOf(workloads, a, c).value, workloads, a, c)
  {
    hide FiguresFit, WorkFits, Aggregate, EntryOf;
    var list := EntryList(workloads, a, c);
    var es := AllSome(list).value;
    AggregateFits(es, a, c);
    forall i | 0 <= i < |workloads|
      ensures WorkFits(es[i], workloads[i], a, c)
    {
      assert list[i] == EntryOf(workloads[i], a, c);
      EntryFits(workloads[i], a, c);
    }
  }

  // ---------- the report ----------

  const NOMINAL_CORNER := "14a_tt_0p70v_25c_frontside_pdn"

  /** Position of the first corner with the nominal name. */
  ghost predicate FirstNamed(corners: seq<Corner>, k: int) {
    0 <= k < |corners| && corners[k].name == NOMINAL_CORNER && forall j :: 0 <= j < k ==> corners[j].name != NOMINAL_CORNER
  }

  /** Position of the last one. */
  ghost predicate LastNamed(corners: seq<Corner>, k: int) {
    0 <= k < |corners| && corners[k].name == NOMINAL_CORNER && forall j :: k < j < |corners| ==> corners[j].name != NOMINAL_CORNER
  }

  /** Position of the first entry with the least IPC. */
  ghost predicate FirstLeast(es: seq<CornerEntry>, k: int) {
    && 0 <= k < |es| && (forall j :: 0 <= j < |es| ==> es[k].ipc <= es[j].ipc)
    && forall j :: 0 <= j < k ==> es[k].ipc < es[j].ipc
  }

  /** One figure of the corners is at most `top`, and for one corner it is. */
  ghost predicate Greatest(es: seq<CornerEntry>, figure: CornerEntry -> real, top: real) {
    && (forall j :: 0 <= j < |es| ==> figure(es[j]) <= top)
    && exists j :: 0 <= j < |es| && figure(es[j]) == top
  }

  function PowerOf(e: CornerEntry): real {
    e.powerW
  }

  function TemperatureOf(e: CornerEntry): real {
    e.dieTempC
  }

  ghost predicate ReportFits(r: Report, workloads: seq<Workload>, corners: seq<Corner>, a: Args) {
    && |r.corners| == |corners| && r.cornerCount == |corners|
    && (forall i :: 0 <= i < |corners| ==> CornerFits(r.corners[i], workloads, a, corners[i]))
    && (exists k :: FirstNamed(corners, k) && r.nominal == r.corners[k])
    && (exists k :: LastNamed(corners, k) && Quotient(r.mpki, Sum(r.corners[k].workloads, MpkiOf), |workloads| as real))
    && (exists k :: FirstLeast(r.corners, k) && r.worstName == corners[k].name && r.worstIpc == r.corners[k].ipc
                    && r.worstFrequencyHz == r.corners[k].frequencyHz)
    && Greatest(r.corners, PowerOf, r.worstPowerW) && Greatest(r.corners, TemperatureOf, r.worstDieTempC)
  }

  lemma {:induction false} FirstNominalAt(cs: seq<CornerEntry>) returns (k: nat)
    requires FirstNominal(cs).Some?
    ensures k < |cs| && cs[k].name == NOMINAL && FirstNominal(cs) == Some(cs[k])
    ensures forall j :: 0 <= j < k ==> cs[j].name != NOMINAL
  {
    k := 0;
    if cs[0].name != NOMINAL {
      var rest := FirstNominalAt(cs[1..]);
      k := rest + 1;
      assert forall j :: 1 <= j < |cs| ==> cs[j] == cs[1..][j - 1];
    }
  }

  lemma {:induction false} LastNominalAt(cs: seq<CornerEntry>) returns (k: nat)
    requires LastNominalWorkloads(cs) != []
    ensures k < |cs| && cs[k].name == NOMINAL && LastNominalWorkloads(cs) == cs[k].workloads
    ensures forall j :: k < j < |cs| ==> cs[j].name != NOMINAL
  {
    var n := |cs| - 1;
    k := n;
    if cs[n].name != NOMINAL {
      k := LastNominalAt(cs[..n]);
      assert forall j :: 0 <= j < n ==> cs[j] == cs[..n][j];
    }
  }

  /** The first corner entry of the nominal name is the nominal one. */
  ghost predicate NominalIs(cs: seq<CornerEntry>, nominal: CornerEntry, k: int) {
    0 <= k < |cs| && cs[k].name == NOMINAL && nominal == cs[k] && forall j :: 0 <= j < k ==> cs[j].name != NOMINAL
  }

  ghost predicate MpkiIs(cs: seq<CornerEntry>, mpki: real, k: int) {
    && 0 <= k < |cs| && cs[k].name == NOMINAL && (forall j :: k < j < |cs| ==> cs[j].name != NOMINAL)
    && Quotient(mpki, Sum(cs[k].workloads, MpkiOf), |cs[k].workloads| as real)
  }

  ghost predicate WorstIs(cs: seq<CornerEntry>, r: Report, k: int) {
    FirstLeast(cs, k) && r.worstName == cs[k].name && r.worstIpc == cs[k].ipc && r.worstFrequencyHz == cs[k].frequencyHz
  }

  lemma SummaryParts(cs: seq<CornerEntry>, r: Report)
    requires Summary(cs, LastNominalWorkloads(cs)) == Modeled(r)
    ensures cs != [] && LastNominalWorkloads(cs) != [] && FirstNominal(cs) == Some(r.nominal)
    ensures r.corners == cs && r.cornerCount == |cs|
    ensures r.mpki == TotalMpki(LastNominalWorkloads(cs)) / |LastNominalWorkloads(cs)| as real
    ensures var worst := cs[FirstWorst(cs)];
            r.worstName == worst.name && r.worstIpc == worst.ipc && r.worstFrequencyHz == worst.frequencyHz
    ensures Greatest(cs, PowerOf, r.worstPowerW) && Greatest(cs, TemperatureOf, r.worstDieTempC)
  {
    hide FirstNominal, LastNominalWorkloads, FirstWorst, TotalMpki, MaxOf, Greatest;
    TopFigure(cs, (c: CornerEntry) => c.powerW, PowerOf);
    TopFigure(cs, (c: CornerEntry) => c.dieTempC, TemperatureOf);
  }

  lemma TopFigure(cs: seq<CornerEntry>, f: CornerEntry -> real, figure: CornerEntry -> real)
    requires cs != [] && forall c :: f(c) == figure(c)
    ensures Greatest(cs, figure, MaxOf(cs, f))
  {
    var j :| 0 <= j < |cs| && f(cs[j]) == MaxOf(cs, f);
    assert figure(cs[j]) == MaxOf(cs, f);
  }

  lemma MpkiFits(cs: seq<CornerEntry>, mpki: real) returns (k: nat)
    requires LastNominalWorkloads(cs) != []
    requires mpki == TotalMpki(LastNominalWorkloads(cs)) / |LastNominalWorkloads(cs)| as real
    ensures MpkiIs(cs, mpki, k)
  {
    k := LastNominalAt(cs);
    var all := LastNominalWorkloads(cs);
    TotalsAreSums(all);
    hide LastNominalWorkloads, TotalMpki, Sum, Quotient;
    QuotientOf(TotalMpki(all), |all| as real);
  }

  lemma SummaryFits(cs: seq<CornerEntry>, r: Report) returns (first: nat, last: nat, worst: nat)
    requires Summary(cs, LastNominalWorkloads(cs)) == Modeled(r)
    ensures r.corners == cs && r.cornerCount == |cs|
    ensures NominalIs(cs, r.nominal, first) && MpkiIs(cs, r.mpki, last) && WorstIs(cs, r, worst)
    ensures Greatest(cs, PowerOf, r.worstPowerW) && Greatest(cs, TemperatureOf, r.worstDieTempC)
  {
    SummaryParts(cs, r);
    hide Summary, MpkiIs, Greatest, TotalMpki;
    first := FirstNominalAt(cs);
    last := MpkiFits(cs, r.mpki);
    worst := FirstWorst(cs);
  }

  /** The positions among the entries are positions among the corners. */
  lemma NamedPositions(corners: seq<Corner>, r: Report, count: nat, first: nat, last: nat, worst: nat)
    requires |r.corners| == |corners|
    requires forall i :: 0 <= i < |corners| ==> r.corners[i].name == corners[i].name && |r.corners[i].workloads| == count
    requires NominalIs(r.corners, r.nominal, first) && MpkiIs(r.corners, r.mpki, last) && WorstIs(r.corners, r, worst)
    ensures FirstNamed(corners, first) && r.nominal == r.corners[first]
    ensures LastNamed(corners, last) && Quotient(r.mpki, Sum(r.corners[last].workloads, MpkiOf), count as real)
    ensures FirstLeast(r.corners, worst) && r.worstName == corners[worst].name && r.worstIpc == r.corners[worst].ipc
            && r.worstFrequencyHz == r.corners[worst].frequencyHz
  {
    hide Quotient, Sum;
    assert NOMINAL == NOMINAL_CORNER;
  }

  lemma NameAndCount(e: CornerEntry, workloads: seq<Workload>, a: Args, c: Corner)
    requires CornerFits(e, workloads, a, c)
    ensures e.name == c.name && |e.workloads| == |workloads|
  {
  }

  lemma ModelParts(workloads: seq<Workload>, corners: seq<Corner>, a: Args, r: Report)
    requires Model(workloads, corners, a) == Modeled(r)
    ensures AllSome(CornerList(workloads, corners, a)).Some?
    ensures var cs := AllSome(CornerList(workloads, corners, a)).value; Summary(cs, LastNominalWorkloads(cs)) == Modeled(r)
  {
    hide CornerList, Summary, LastNominalWorkloads;
  }

  /** The report takes its nominal figures, its MPKI and its worst figures from where they belong. */
  lemma ModeledReport(workloads: seq<Workload>, corners: seq<Corner>, a: Args)
    requires Model(workloads, corners, a).Modeled?
    ensures ReportFits(Model(workloads, corners, a).report, workloads, corners, a)
  {
    var r := Model(workloads, corners, a).report;
    ModelParts(workloads, corners, a, r);
    CornersMean(workloads, corners, a);
    hide *;
    var cs := AllSome(CornerList(workloads, corners, a)).value;
    var first, last, worst := SummaryFits(cs, r);
    forall i | 0 <= i < |corners|
      ensures CornerFits(r.corners[i], workloads, a, corners[i])
      ensures r.corners[i].name == corners[i].name && |r.corners[i].workloads| == |workloads|
    {
      CornerIsFit(workloads, a, corners[i]);
      NameAndCount(r.corners[i], workloads, a, corners[i]);
    }
    NamedPositions(corners, r, |workloads|, first, last, worst);
    ReportIsFit(r, workloads, corners, a, first, last, worst);
  }

  lemma ReportIsFit(r: Report, workloads: seq<Workload>, corners: seq<Corner>, a: Args, first: nat, last: nat, worst: nat)
    requires |r.corners| == |corners| && r.cornerCount == |corners|
    requires forall i :: 0 <= i < |corners| ==> CornerFits(r.corners[i], workloads, a, corners[i])
    requires FirstNamed(corners, first) && r.nominal == r.corners[first]
    requires LastNamed(corners, last) && Quotient(r.mpki, Sum(r.corners[last].workloads, MpkiOf), |workloads| as real)
    requires FirstLeast(r.corners, worst) && r.worstName == corners[worst].name && r.worstIpc == r.corners[worst].ipc
             && r.worstFrequencyHz == r.corners[worst].frequencyHz
    requires Greatest(r.corners, PowerOf, r.worstPowerW) && Greatest(r.corners, TemperatureOf, r.worstDieTempC)
    ensures ReportFits(r, workloads, corners, a)
  {
    hide CornerFits, Quotient, Sum, FirstNamed, LastNamed, FirstLeast, Greatest;
  }
}
