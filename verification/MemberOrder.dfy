/** The printed members of every capability document stand in the order RFC 8785 section 3.2.3 asks for. */
module MemberOrder {
  import opened Wrappers
  import opened Ordering
  import opened CapabilityJson
  import opened CapabilityCodec

  /** The first differing character decides. */
  lemma FirstDifference(a: string, b: string, i: nat)
    requires i < |a| && i < |b| && a[i] < b[i] && forall j :: 0 <= j < i ==> a[j] == b[j]
    ensures Less(a, b)
  {
    DifferenceAhead(a, b, 0, i);
  }

  lemma {:induction false} DifferenceAhead(a: string, b: string, from: nat, i: nat)
    requires from <= i < |a| && i < |b| && a[i] < b[i] && forall j :: from <= j < i ==> a[j] == b[j]
    ensures LessFrom(a, b, from)
    decreases i - from
  {
    if from < i { DifferenceAhead(a, b, from + 1, i); }
  }

  lemma AddMember(name: string, value: Value, tail: Members)
    requires Leads(name, tail) && InOrder(value) && MembersInOrder(tail)
    ensures MembersInOrder(Field(name, value, tail))
  {
  }

  lemma AddText(name: string, text: string, tail: Members) returns (ms: Members)
    requires Leads(name, tail) && MembersInOrder(tail)
    ensures ms == Field(name, Text(text), tail) && MembersInOrder(ms)
  {
    ms := Field(name, Text(text), tail);
  }

  lemma MeasurementInOrder(b: BackupRenewal)
    ensures MembersInOrder(MeasurementMembers(b)) && Leads("jobId", MeasurementMembers(b))
  {
    FirstDifference("targetRef", "tenantId", 1);
    var m0 := AddText("usedBytes", b.usedBytes, End);
    var m1 := AddText("tenantId", b.tenantId, m0);
    var m2 := AddText("targetRef", b.targetRef, m1);
    var m3 := AddText("repositoryId", b.repositoryId, m2);
    var m4 := AddText("quotaBytes", b.quotaBytes, m3);
    var m5 := AddText("planHash", b.planHash, m4);
    var m6 := AddText("measuredAt", b.measuredAt, m5);
  }

  lemma RenewalInOrder(b: BackupRenewal)
    ensures MembersInOrder(RenewalMembers(b))
  {
    MeasurementInOrder(b);
    var m0 := AddText("jobId", b.jobId, MeasurementMembers(b));
    var m1 := AddText("freshAttestationRef", b.freshAttestationRef, m0);
    var m2 := AddText("deploymentId", b.deploymentId, m1);
    var m3 := AddText("custodyAttestationRef", b.custodyAttestationRef, m2);
    var m4 := AddText("bindingHash", b.bindingHash, m3);
    var m5 := AddText("agentId", b.agentId, m4);
  }

  lemma ReceiveInOrder(t: TransferReceive)
    ensures MembersInOrder(ReceiveMembers(t))
  {
    FirstDifference("sourceOwnerRef", "step", 1);
    var m0 := AddText("step", t.step, End);
    var m1 := AddText("sourceOwnerRef", t.sourceOwnerRef, m0);
    var m2 := AddText("candidateSpecHash", t.candidateSpecHash, m1);
  }

  lemma RetirementInOrder(t: TransferRetirement)
    ensures MembersInOrder(RetirementMembers(t))
  {
    FirstDifference("operationId", "outcomeDigest", 1);
    var m0 := AddText("transferId", t.transferId, End);
    var m1 := AddText("role", t.role, m0);
    var m2 := AddText("outcomeDigest", t.outcomeDigest, m1);
    var m3 := AddText("operationId", t.operationId, m2);
    var m4 := AddText("candidateSpecHash", t.candidateSpecHash, m3);
    var m5 := AddText("baselineSpecHash", t.baselineSpecHash, m4);
  }

  lemma RetirementFieldInOrder(t: Option<TransferRetirement>, rest: Members)
    requires MembersInOrder(rest) && Leads("transferRetirement", rest) && Leads("transferReceive", rest)
    requires Leads("stackId", rest)
    ensures var ms := RetirementField(t, rest);
      MembersInOrder(ms) && Leads("transferReceive", ms) && Leads("stackId", ms)
  {
    if t.Some? {
      RetirementInOrder(t.value);
      AddMember("transferRetirement", Record(RetirementMembers(t.value)), rest);
      FirstDifference("transferReceive", "transferRetirement", 10);
    }
  }

  lemma ReceiveFieldInOrder(t: Option<TransferReceive>, rest: Members)
    requires MembersInOrder(rest) && Leads("transferReceive", rest) && Leads("stackId", rest)
    ensures MembersInOrder(ReceiveField(t, rest)) && Leads("stackId", ReceiveField(t, rest))
  {
    if t.Some? {
      ReceiveInOrder(t.value);
      AddMember("transferReceive", Record(ReceiveMembers(t.value)), rest);
    }
  }

  lemma ClosingInOrder(end: Closing)
    ensures MembersInOrder(ClosingMembers(end)) && Leads("stackId", ClosingMembers(end))
  {
    var last := AddText("uiManagerRef", end.uiManagerRef, End);
    RetirementFieldInOrder(end.retirement, last);
    ReceiveFieldInOrder(end.receive, RetirementField(end.retirement, last));
  }

  lemma StackInOrder(c: Capability, signed: bool)
    ensures MembersInOrder(StackMembers(c, signed)) && Leads("schemaVersion", StackMembers(c, signed))
  {
    ClosingInOrder(ClosingOf(c));
    FirstDifference("schemaVersion", "signature", 1);
    FirstDifference("schemaVersion", "stackId", 1);
    FirstDifference("signature", "stackId", 1);
    var stack := AddText("stackId", c.stackId, ClosingMembers(ClosingOf(c)));
    if signed { var all := AddText("signature", c.signature, stack); }
  }

  lemma IdentityInOrder(id: Identity, rest: Members)
    requires MembersInOrder(rest) && Leads("schemaVersion", rest)
    ensures MembersInOrder(IdentityMembers(id, rest)) && Leads("audience", IdentityMembers(id, rest))
    ensures Leads("backupRenewal", IdentityMembers(id, rest))
  {
    FirstDifference("issuedAt", "issuerId", 5);
    var m0 := AddText("schemaVersion", id.schemaVersion, rest);
    var m1 := AddText("rilRef", id.rilRef, m0);
    var m2 := AddText("ownerRef", id.ownerRef, m1);
    var m3 := AddText("keyId", id.keyId, m2);
    var m4 := AddText("issuerId", id.issuerId, m3);
    var m5 := AddText("issuedAt", id.issuedAt, m4);
    var m6 := AddText("expiresAt", id.expiresAt, m5);
    var m7 := AddText("capabilityId", id.capabilityId, m6);
  }

  lemma RenewalFieldInOrder(b: Option<BackupRenewal>, rest: Members)
    requires MembersInOrder(rest) && Leads("backupRenewal", rest) && Leads("audience", rest)
    ensures MembersInOrder(RenewalField(b, rest)) && Leads("audience", RenewalField(b, rest))
  {
    if b.Some? {
      RenewalInOrder(b.value);
      AddMember("backupRenewal", Record(RenewalMembers(b.value)), rest);
    }
  }

  /** Whichever optional members it has, signed or not, a capability is printed with strictly
      increasing member names. */
  lemma PrintedMembersIncrease(c: Capability, signed: bool)
    ensures InOrder(Record(CapabilityMembers(c, signed)))
  {
    StackInOrder(c, signed);
    IdentityInOrder(IdentityOf(c), StackMembers(c, signed));
    var identity := IdentityMembers(IdentityOf(c), StackMembers(c, signed));
    RenewalFieldInOrder(c.backupRenewal, identity);
    var rest := RenewalField(c.backupRenewal, identity);
    var ms := Field("audience", Text(c.audience), rest);
    AddMember("audience", Text(c.audience), rest);
    FirstDifference("allowedOperations", "audience", 1);
    AddMember("allowedOperations", Texts(c.allowedOperations), ms);
  }
}
