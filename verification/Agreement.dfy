/** Where the gate before a run and the validator after it read the process section alike. */
module Agreement {
  import opened Json
  import opened Text
  import opened Vocabulary
  import opened Report
  import G = MetadataGate

  ghost predicate GateAcceptsProcess(data: Object) {
    forall b :: !G.FieldBlocks(Process, data, RequiredFields(Process), b) && !G.ProcessBlocks(data, b)
  }

  ghost predicate ReportAcceptsProcess(data: Object) {
    forall d :: !FieldFaulty(Process, data, RequiredFields(Process), d) && !ProcessFaulty(data, d)
  }

  /** The seven conditions on the process section that both sides state on their own. */
  predicate ProcessConditions(data: Object) {
    var contract := Get(data, "process_effects_contract");
    && contract.JObj?
    && Get(contract.fields, "path") == JStr(G.CONTRACT_PATH)
    && Get(contract.fields, "sha256").JStr? && G.IsSha256(Get(contract.fields, "sha256").s)
    && Get(data, "node").JStr? && Contains(Get(data, "node").s, "14A")
    && Get(data, "process_corner_count").JInt? && Get(data, "process_corner_count").i > 0
    && Get(data, "worst_process_corner").JStr? && StartsWith(Get(data, "worst_process_corner").s, "14a_")
    && Get(data, "pdk_signoff_claim") == JStr(G.SIGNOFF_PASSED)
  }

  lemma GateConditions(data: Object)
    ensures (forall b :: !G.ProcessBlocks(data, b)) <==> ProcessConditions(data)
  {
    if forall b :: !G.ProcessBlocks(data, b) {
      assert !G.ProcessBlocks(data, G.NoContract) && !G.ProcessBlocks(data, G.WrongContractPath);
      assert !G.ProcessBlocks(data, G.NoContractDigest) && !G.ProcessBlocks(data, G.WrongNode);
      assert !G.ProcessBlocks(data, G.BadCornerCount) && !G.ProcessBlocks(data, G.BadWorstCorner);
      assert !G.ProcessBlocks(data, G.NoPdkSignoff);
    }
  }

  lemma ReportConditions(data: Object)
    ensures (forall d :: !ProcessFaulty(data, d)) <==> ProcessConditions(data)
  {
    if forall d :: !ProcessFaulty(data, d) {
      assert !ProcessFaulty(data, ContractFault) && !ProcessFaulty(data, ContractPathFault);
      assert !ProcessFaulty(data, ContractDigestFault) && !ProcessFaulty(data, NodeFault);
      assert !ProcessFaulty(data, CornerCountFault) && !ProcessFaulty(data, WorstCornerFault);
      assert !ProcessFaulty(data, SignoffFault);
    }
  }

  /** Text that begins with a visible character other than 'b' is neither blank nor a "blocked-" note. */
  lemma VisibleStart(s: string, p: string)
    requires p <= s && p != "" && !IsSpace(p[0]) && !IsSpace(p[|p| - 1]) && p[0] != 'b'
    ensures Strip(s) != "" && !G.IsBlocked(JStr(s))
  {
    StripKeepsPrefix(s, p);
    assert Strip(s)[0] == p[0];
    assert G.BLOCKED_PREFIX[0] == 'b';
  }

  lemma ContainingIsNotBlank(s: string, sub: string)
    requires Contains(s, sub) && sub != "" && !IsSpace(sub[0])
    ensures Strip(s) != ""
  {
    var i :| 0 <= i <= |s| && OccursAt(s, sub, i);
    assert s[i] == s[i..i + |sub|][0] == sub[0];
    assert s[i] in s;
    StripEmptyIffBlank(s);
  }

  /** Given the shared conditions, no other field of the table is in question. */
  lemma SettledFields(data: Object, f: (string, Type))
    requires ProcessConditions(data) && f in RequiredFields(Process)
    ensures f == ("node", TStr) || f == ("pdk", TStr)
            || Settled(data, f)
  {
    var fields := RequiredFields(Process);
    var i :| 0 <= i < |fields| && fields[i] == f;
    if i == 4 {
      VisibleStart(Get(data, "worst_process_corner").s, "14a_");
    } else if i == 5 {
      VisibleStart(G.SIGNOFF_PASSED, "pdk");
    } else {
      assert i == 0 || i == 1 || i == 2 || i == 3;
    }
  }

  predicate Settled(data: Object, f: (string, Type)) {
    HasType(Get(data, f.0), f.1) && !G.IsBlocked(Get(data, f.0)) && (f.1 == TStr ==> Strip(Str(Get(data, f.0))) != "")
  }

  /** With every other field settled, the two tables leave only `node` and `pdk` open. */
  lemma OpenFields(data: Object, fields: seq<(string, Type)>, node: string, pdk: string)
    requires (node, TStr) in fields && (pdk, TStr) in fields
    requires forall f :: f in fields ==> f == (node, TStr) || f == (pdk, TStr) || Settled(data, f)
    requires Get(data, node).JStr? && Strip(Get(data, node).s) != ""
    ensures (forall b :: !G.FieldBlocks(Process, data, fields, b)) <==>
            !G.IsBlocked(Get(data, node)) && !Get(data, pdk).JNull? && !G.IsBlocked(Get(data, pdk))
    ensures (forall d :: !FieldFaulty(Process, data, fields, d)) <==> Get(data, pdk).JStr? && Strip(Get(data, pdk).s) != ""
  {
    GateTable(data, fields);
    ReportTable(data, fields);
    assert (node, TStr).0 == node && (pdk, TStr).0 == pdk;
  }

  /** Given the shared conditions, the field tables leave only two questions on each side. */
  lemma FieldTables(data: Object)
    requires ProcessConditions(data)
    ensures (forall b :: !G.FieldBlocks(Process, data, RequiredFields(Process), b)) <==>
            !G.IsBlocked(Get(data, "node")) && !Get(data, "pdk").JNull? && !G.IsBlocked(Get(data, "pdk"))
    ensures (forall d :: !FieldFaulty(Process, data, RequiredFields(Process), d)) <==>
            Get(data, "pdk").JStr? && Strip(Get(data, "pdk").s) != ""
  {
    var fields := RequiredFields(Process);
    assert fields[0] == ("node", TStr) && fields[1] == ("pdk", TStr);
    ContainingIsNotBlank(Get(data, "node").s, "14A");
    forall f | f in fields
      ensures f == ("node", TStr) || f == ("pdk", TStr) || Settled(data, f)
    {
      SettledFields(data, f);
    }
    OpenFields(data, fields, "node", "pdk");
  }

  lemma GateTable(data: Object, fields: seq<(string, Type)>)
    ensures (forall b :: !G.FieldBlocks(Process, data, fields, b)) <==>
            forall f :: f in fields ==> !Get(data, f.0).JNull? && !G.IsBlocked(Get(data, f.0))
  {
    if forall b :: !G.FieldBlocks(Process, data, fields, b) {
      forall f | f in fields
        ensures !Get(data, f.0).JNull? && !G.IsBlocked(Get(data, f.0))
      {
        assert !G.FieldBlocks(Process, data, fields, G.BlockedField(Process, f.0));
      }
    }
  }

  lemma ReportTable(data: Object, fields: seq<(string, Type)>)
    ensures (forall d :: !FieldFaulty(Process, data, fields, d)) <==>
            forall f :: f in fields ==>
              HasType(Get(data, f.0), f.1) && (f.1 == TStr ==> Strip(Str(Get(data, f.0))) != "")
  {
    if forall d :: !FieldFaulty(Process, data, fields, d) {
      forall f | f in fields
        ensures HasType(Get(data, f.0), f.1) && (f.1 == TStr ==> Strip(Str(Get(data, f.0))) != "")
      {
        assert !FieldFaulty(Process, data, fields, FieldType(Process, f.0));
        assert !FieldFaulty(Process, data, fields, FieldBlank(Process, f.0));
      }
    }
  }

  /**
   The gate and the validator impose the same conditions of their own on the process section, and
   through their field tables differ on two fields only: the validator wants `pdk` to be visible
   text, the gate wants neither `node` nor `pdk` to be a "blocked-" note.
   */
  lemma ProcessVerdictsAgree(data: Object)
    ensures (forall b :: !G.ProcessBlocks(data, b)) <==> forall d :: !ProcessFaulty(data, d)
    ensures GateAcceptsProcess(data) && Get(data, "pdk").JStr? && Strip(Get(data, "pdk").s) != "" <==>
            ReportAcceptsProcess(data) && !G.IsBlocked(Get(data, "node")) && !G.IsBlocked(Get(data, "pdk"))
  {
    GateConditions(data);
    ReportConditions(data);
    if ProcessConditions(data) {
      FieldTables(data);
    }
  }

  // ---------- where the two sides part ----------

  function Digest(): (s: string)
    ensures G.IsSha256(s)
  {
    seq(64, i => '0')
  }

  function SectionWith(node: string, pdk: Json): Object {
    map["node" := JStr(node), "pdk" := pdk,
        "process_effects_contract" := JObj(map["path" := JStr(G.CONTRACT_PATH), "sha256" := JStr(Digest())]),
        "process_corner_count" := JInt(1), "worst_process_corner" := JStr("14a_x"), "pdk_signoff_claim" := JStr(G.SIGNOFF_PASSED)]
  }

  lemma SectionKeys()
    ensures "node" != "pdk" && |"process_effects_contract"| == 24 && |"process_corner_count"| == 20
    ensures |"worst_process_corner"| == 20 && |"pdk_signoff_claim"| == 17 && "process_corner_count"[0] != "worst_process_corner"[0]
    ensures |"path"| != |"sha256"|
  {
  }

  lemma SectionHolds(node: string, pdk: Json)
    requires Contains(node, "14A")
    ensures var d := SectionWith(node, pdk); ProcessConditions(d) && Get(d, "node") == JStr(node) && Get(d, "pdk") == pdk
  {
    hide Contains;
    SectionKeys();
    assert StartsWith("14a_x", "14a_");
  }

  /** The verdicts on such a section, side by side. */
  lemma SectionVerdicts(node: string, pdk: Json)
    requires Contains(node, "14A")
    ensures var d := SectionWith(node, pdk);
            && (GateAcceptsProcess(d) <==> !G.IsBlocked(JStr(node)) && !pdk.JNull? && !G.IsBlocked(pdk))
            && (ReportAcceptsProcess(d) <==> pdk.JStr? && Strip(pdk.s) != "")
  {
    hide SectionWith, G.ProcessBlocks, ProcessFaulty, ProcessConditions, Contains, G.FieldBlocks, FieldFaulty;
    var d := SectionWith(node, pdk);
    SectionHolds(node, pdk);
    FieldTables(d);
    GateConditions(d);
    ReportConditions(d);
  }

  /** A blocked note as the node: the validator accepts it, the gate does not. */
  lemma BlockedNodeDivides()
    ensures var d := SectionWith("blocked-14A", JStr("p")); ReportAcceptsProcess(d) && !GateAcceptsProcess(d)
  {
    assert OccursAt("blocked-14A", "14A", 8);
    StripKeepsPrefix("blocked-14A", G.BLOCKED_PREFIX);
    VisibleStart("p", "p");
    hide SectionWith, GateAcceptsProcess, ReportAcceptsProcess;
    SectionVerdicts("blocked-14A", JStr("p"));
  }

  /** A number as the PDK: the gate accepts it, the validator does not. */
  lemma NumericPdkDivides()
    ensures var d := SectionWith("14A", JInt(1)); GateAcceptsProcess(d) && !ReportAcceptsProcess(d)
  {
    assert OccursAt("14A", "14A", 0);
    VisibleStart("14A", "14A");
    hide SectionWith, GateAcceptsProcess, ReportAcceptsProcess;
    SectionVerdicts("14A", JInt(1));
  }
}
