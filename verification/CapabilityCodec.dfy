/** Canonical RFC 8785 bytes of an Advanced capability (sections 3.2.2.2 and 3.2.3) and the parser that inverts them. */
module CapabilityCodec {
  import opened Wrappers
  import opened CapabilityJson

  datatype BackupRenewal = BackupRenewal(
    agentId: string, bindingHash: string, custodyAttestationRef: string, deploymentId: string,
    freshAttestationRef: string, jobId: string, measuredAt: string, planHash: string, quotaBytes: string,
    repositoryId: string, targetRef: string, tenantId: string, usedBytes: string)
  datatype TransferReceive = TransferReceive(candidateSpecHash: string, sourceOwnerRef: string, step: string)
  datatype TransferRetirement = TransferRetirement(
    baselineSpecHash: string, candidateSpecHash: string, operationId: string,
    outcomeDigest: string, role: string, transferId: string)
  datatype Capability = Capability(
    allowedOperations: seq<string>, audience: string, backupRenewal: Option<BackupRenewal>, capabilityId: string,
    expiresAt: string, issuedAt: string, issuerId: string, keyId: string, ownerRef: string, rilRef: string,
    schemaVersion: string, signature: string, stackId: string, transferReceive: Option<TransferReceive>,
    transferRetirement: Option<TransferRetirement>, uiManagerRef: string)

  // ---- The published document, by the names of its members ----

  predicate HasText(ms: Members, name: string, text: string) { Find(ms, name) == Some(Text(text)) }

  const RENEWAL_NAMES := {"agentId", "bindingHash", "custodyAttestationRef", "deploymentId", "freshAttestationRef",
    "jobId", "measuredAt", "planHash", "quotaBytes", "repositoryId", "targetRef", "tenantId", "usedBytes"}
  const RECEIVE_NAMES := {"candidateSpecHash", "sourceOwnerRef", "step"}
  const RETIREMENT_NAMES := {"baselineSpecHash", "candidateSpecHash", "operationId", "outcomeDigest", "role",
    "transferId"}
  const CAPABILITY_NAMES := {"allowedOperations", "audience", "backupRenewal", "capabilityId", "expiresAt", "issuedAt",
    "issuerId", "keyId", "ownerRef", "rilRef", "schemaVersion", "signature", "stackId", "transferReceive",
    "transferRetirement", "uiManagerRef"}

  ghost predicate OnlyNames(ms: Members, names: set<string>) { forall n :: Find(ms, n).Some? ==> n in names }

  ghost predicate ReadsRenewal(ms: Members, b: BackupRenewal) {
    && HasText(ms, "agentId", b.agentId) && HasText(ms, "bindingHash", b.bindingHash)
    && HasText(ms, "custodyAttestationRef", b.custodyAttestationRef) && HasText(ms, "deploymentId", b.deploymentId)
    && HasText(ms, "freshAttestationRef", b.freshAttestationRef) && HasText(ms, "jobId", b.jobId)
    && HasText(ms, "measuredAt", b.measuredAt) && HasText(ms, "planHash", b.planHash)
    && HasText(ms, "quotaBytes", b.quotaBytes) && HasText(ms, "repositoryId", b.repositoryId)
    && HasText(ms, "targetRef", b.targetRef) && HasText(ms, "tenantId", b.tenantId)
    && HasText(ms, "usedBytes", b.usedBytes) && OnlyNames(ms, RENEWAL_NAMES)
  }

  ghost predicate ReadsReceive(ms: Members, t: TransferReceive) {
    && HasText(ms, "candidateSpecHash", t.candidateSpecHash) && HasText(ms, "sourceOwnerRef", t.sourceOwnerRef)
    && HasText(ms, "step", t.step) && OnlyNames(ms, RECEIVE_NAMES)
  }

  ghost predicate ReadsRetirement(ms: Members, t: TransferRetirement) {
    && HasText(ms, "baselineSpecHash", t.baselineSpecHash) && HasText(ms, "candidateSpecHash", t.candidateSpecHash)
    && HasText(ms, "operationId", t.operationId) && HasText(ms, "outcomeDigest", t.outcomeDigest)
    && HasText(ms, "role", t.role) && HasText(ms, "transferId", t.transferId) && OnlyNames(ms, RETIREMENT_NAMES)
  }

  predicate IsRecord(v: Option<Value>) { v.Some? && v.value.Record? }

  /** The three optional records: a member of that name exactly when the capability has one, and then its fields. */
  ghost predicate ReadsOptions(ms: Members, c: Capability) {
    && (match c.backupRenewal
        case None => Find(ms, "backupRenewal") == None
        case Some(b) => IsRecord(Find(ms, "backupRenewal")) && ReadsRenewal(Find(ms, "backupRenewal").value.members, b))
    && (match c.transferReceive
        case None => Find(ms, "transferReceive") == None
        case Some(t) =>
          IsRecord(Find(ms, "transferReceive")) && ReadsReceive(Find(ms, "transferReceive").value.members, t))
    && (match c.transferRetirement
        case None => Find(ms, "transferRetirement") == None
        case Some(t) =>
          IsRecord(Find(ms, "transferRetirement")) && ReadsRetirement(Find(ms, "transferRetirement").value.members, t))
  }

  ghost predicate ReadsTexts(ms: Members, c: Capability) {
    && HasText(ms, "audience", c.audience) && HasText(ms, "capabilityId", c.capabilityId)
    && HasText(ms, "expiresAt", c.expiresAt) && HasText(ms, "issuedAt", c.issuedAt)
    && HasText(ms, "issuerId", c.issuerId) && HasText(ms, "keyId", c.keyId) && HasText(ms, "ownerRef", c.ownerRef)
    && HasText(ms, "rilRef", c.rilRef) && HasText(ms, "schemaVersion", c.schemaVersion)
    && HasText(ms, "stackId", c.stackId) && HasText(ms, "uiManagerRef", c.uiManagerRef)
  }

  /** Every field of the capability is found under its published name, and nothing else is. */
  ghost predicate ReadsAs(ms: Members, c: Capability, signed: bool) {
    && Find(ms, "allowedOperations") == Some(Texts(c.allowedOperations)) && ReadsTexts(ms, c) && ReadsOptions(ms, c)
    && (if signed then HasText(ms, "signature", c.signature) else Find(ms, "signature") == None)
    && OnlyNames(ms, CAPABILITY_NAMES)
  }

  // ---- The members as they are printed ----

  function MeasurementMembers(b: BackupRenewal): Members {
    Field("measuredAt", Text(b.measuredAt),
    Field("planHash", Text(b.planHash),
    Field("quotaBytes", Text(b.quotaBytes),
    Field("repositoryId", Text(b.repositoryId),
    Field("targetRef", Text(b.targetRef),
    Field("tenantId", Text(b.tenantId),
    Field("usedBytes", Text(b.usedBytes), End)))))))
  }

  function RenewalMembers(b: BackupRenewal): Members {
    Field("agentId", Text(b.agentId),
    Field("bindingHash", Text(b.bindingHash),
    Field("custodyAttestationRef", Text(b.custodyAttestationRef),
    Field("deploymentId", Text(b.deploymentId),
    Field("freshAttestationRef", Text(b.freshAttestationRef),
    Field("jobId", Text(b.jobId), MeasurementMembers(b)))))))
  }

  function ReceiveMembers(t: TransferReceive): Members {
    Field("candidateSpecHash", Text(t.candidateSpecHash),
    Field("sourceOwnerRef", Text(t.sourceOwnerRef),
    Field("step", Text(t.step), End)))
  }

  function RetirementMembers(t: TransferRetirement): Members {
    Field("baselineSpecHash", Text(t.baselineSpecHash),
    Field("candidateSpecHash", Text(t.candidateSpecHash),
    Field("operationId", Text(t.operationId),
    Field("outcomeDigest", Text(t.outcomeDigest),
    Field("role", Text(t.role),
    Field("transferId", Text(t.transferId), End))))))
  }

  /** The parts of a capability between which its optional members stand. */
  datatype Identity = Identity(capabilityId: string, expiresAt: string, issuedAt: string, issuerId: string,
                               keyId: string, ownerRef: string, rilRef: string, schemaVersion: string)
  datatype Closing = Closing(receive: Option<TransferReceive>, retirement: Option<TransferRetirement>,
                             uiManagerRef: string)

  function IdentityOf(c: Capability): Identity {
    Identity(c.capabilityId, c.expiresAt, c.issuedAt, c.issuerId, c.keyId, c.ownerRef, c.rilRef, c.schemaVersion)
  }

  function ClosingOf(c: Capability): Closing {
    Closing(c.transferReceive, c.transferRetirement, c.uiManagerRef)
  }

  function IdentityMembers(id: Identity, rest: Members): Members {
    Field("capabilityId", Text(id.capabilityId),
    Field("expiresAt", Text(id.expiresAt),
    Field("issuedAt", Text(id.issuedAt),
    Field("issuerId", Text(id.issuerId),
    Field("keyId", Text(id.keyId),
    Field("ownerRef", Text(id.ownerRef),
    Field("rilRef", Text(id.rilRef),
    Field("schemaVersion", Text(id.schemaVersion), rest))))))))
  }

  function ReceiveField(t: Option<TransferReceive>, rest: Members): Members {
    match t case None => rest case Some(r) => Field("transferReceive", Record(ReceiveMembers(r)), rest)
  }

  function RetirementField(t: Option<TransferRetirement>, rest: Members): Members {
    match t case None => rest case Some(r) => Field("transferRetirement", Record(RetirementMembers(r)), rest)
  }

  function ClosingMembers(end: Closing): Members {
    ReceiveField(end.receive, RetirementField(end.retirement, Field("uiManagerRef", Text(end.uiManagerRef), End)))
  }

  function StackMembers(c: Capability, signed: bool): Members {
    var stack := Field("stackId", Text(c.stackId), ClosingMembers(ClosingOf(c)));
    if signed then Field("signature", Text(c.signature), stack) else stack
  }

  function RenewalField(b: Option<BackupRenewal>, rest: Members): Members {
    match b case None => rest case Some(r) => Field("backupRenewal", Record(RenewalMembers(r)), rest)
  }

  /** The members of the document in code-point order; the signature only when signed. */
  function CapabilityMembers(c: Capability, signed: bool): Members {
    Field("allowedOperations", Texts(c.allowedOperations),
    Field("audience", Text(c.audience),
    RenewalField(c.backupRenewal, IdentityMembers(IdentityOf(c), StackMembers(c, signed)))))
  }

  datatype Reading<+T> = Refused | Read(value: T, left: Members) {
    predicate IsFailure() { Refused? }
    function PropagateFailure<U>(): Reading<U> requires Refused? { Refused }
    function Extract(): (T, Members) requires Read? { (value, left) }
  }

  function TakeText(ms: Members, name: string): Reading<string> {
    if ms.Field? && ms.name == name && ms.value.Text? then Read(ms.value.text, ms.tail) else Refused
  }

  function Finish<T>(value: T, left: Members): Option<T> {
    if left.End? then Some(value) else None
  }

  function DecodeRenewal(ms: Members): Reading<BackupRenewal> {
    var (agentId, m1) :- TakeText(ms, "agentId");
    var (bindingHash, m2) :- TakeText(m1, "bindingHash");
    var (custodyAttestationRef, m3) :- TakeText(m2, "custodyAttestationRef");
    var (deploymentId, m4) :- TakeText(m3, "deploymentId");
    var (freshAttestationRef, m5) :- TakeText(m4, "freshAttestationRef");
    var (jobId, m6) :- TakeText(m5, "jobId");
    var (measuredAt, m7) :- TakeText(m6, "measuredAt");
    var (planHash, m8) :- TakeText(m7, "planHash");
    var (quotaBytes, m9) :- TakeText(m8, "quotaBytes");
    var (repositoryId, m10) :- TakeText(m9, "repositoryId");
    var (targetRef, m11) :- TakeText(m10, "targetRef");
    var (tenantId, m12) :- TakeText(m11, "tenantId");
    var (usedBytes, m13) :- TakeText(m12, "usedBytes");
    Complete(BackupRenewal(agentId, bindingHash, custodyAttestationRef, deploymentId, freshAttestationRef, jobId,
      measuredAt, planHash, quotaBytes, repositoryId, targetRef, tenantId, usedBytes), m13)
  }

  function DecodeReceive(ms: Members): Reading<TransferReceive> {
    var (candidateSpecHash, m1) :- TakeText(ms, "candidateSpecHash");
    var (sourceOwnerRef, m2) :- TakeText(m1, "sourceOwnerRef");
    var (step, m3) :- TakeText(m2, "step");
    Complete(TransferReceive(candidateSpecHash, sourceOwnerRef, step), m3)
  }

  function DecodeRetirement(ms: Members): Reading<TransferRetirement> {
    var (baselineSpecHash, m1) :- TakeText(ms, "baselineSpecHash");
    var (candidateSpecHash, m2) :- TakeText(m1, "candidateSpecHash");
    var (operationId, m3) :- TakeText(m2, "operationId");
    var (outcomeDigest, m4) :- TakeText(m3, "outcomeDigest");
    var (role, m5) :- TakeText(m4, "role");
    var (transferId, m6) :- TakeText(m5, "transferId");
    Complete(TransferRetirement(baselineSpecHash, candidateSpecHash, operationId, outcomeDigest, role, transferId), m6)
  }

  function Complete<T>(value: T, left: Members): Reading<T> {
    if left.End? then Read(value, End) else Refused
  }

  /** An optional record member: absent when the next name differs. */
  function TakeRenewal(ms: Members): Reading<Option<BackupRenewal>> {
    if ms.Field? && ms.name == "backupRenewal" && ms.value.Record? then
      var (b, _) :- DecodeRenewal(ms.value.members);
      Read(Some(b), ms.tail)
    else Read(None, ms)
  }

  function TakeReceive(ms: Members): Reading<Option<TransferReceive>> {
    if ms.Field? && ms.name == "transferReceive" && ms.value.Record? then
      var (t, _) :- DecodeReceive(ms.value.members);
      Read(Some(t), ms.tail)
    else Read(None, ms)
  }

  function TakeRetirement(ms: Members): Reading<Option<TransferRetirement>> {
    if ms.Field? && ms.name == "transferRetirement" && ms.value.Record? then
      var (t, _) :- DecodeRetirement(ms.value.members);
      Read(Some(t), ms.tail)
    else Read(None, ms)
  }

  function DecodeIdentity(ms: Members): Reading<Identity> {
    var (capabilityId, m1) :- TakeText(ms, "capabilityId");
    var (expiresAt, m2) :- TakeText(m1, "expiresAt");
    var (issuedAt, m3) :- TakeText(m2, "issuedAt");
    var (issuerId, m4) :- TakeText(m3, "issuerId");
    var (keyId, m5) :- TakeText(m4, "keyId");
    var (ownerRef, m6) :- TakeText(m5, "ownerRef");
    var (rilRef, m7) :- TakeText(m6, "rilRef");
    var (schemaVersion, m8) :- TakeText(m7, "schemaVersion");
    Read(Identity(capabilityId, expiresAt, issuedAt, issuerId, keyId, ownerRef, rilRef, schemaVersion), m8)
  }

  function DecodeClosing(ms: Members): Reading<Closing> {
    var (receive, m1) :- TakeReceive(ms);
    var (retirement, m2) :- TakeRetirement(m1);
    var (uiManagerRef, m3) :- TakeText(m2, "uiManagerRef");
    Complete(Closing(receive, retirement, uiManagerRef), m3)
  }

  function DecodeMembers(ms: Members, signed: bool): Reading<Capability> {
    if !ms.Field? || ms.name != "allowedOperations" || !ms.value.Texts? then Refused
    else
      var (audience, m1) :- TakeText(ms.tail, "audience");
      var (renewal, m2) :- TakeRenewal(m1);
      var (id, m3) :- DecodeIdentity(m2);
      var (signature, m4) :- if signed then TakeText(m3, "signature") else Read("", m3);
      var (stackId, m5) :- TakeText(m4, "stackId");
      var (end, m6) :- DecodeClosing(m5);
      Read(Capability(ms.value.items, audience, renewal, id.capabilityId, id.expiresAt, id.issuedAt, id.issuerId,
                      id.keyId, id.ownerRef, id.rilRef, id.schemaVersion, signature, stackId, end.receive,
                      end.retirement, end.uiManagerRef), m6)
  }

  function Unsigned(c: Capability): Capability { c.(signature := "") }

  lemma RenewalDecodes(b: BackupRenewal)
    ensures DecodeRenewal(RenewalMembers(b)) == Read(b, End)
  {
  }

  lemma ClosingDecodes(end: Closing)
    ensures DecodeClosing(ClosingMembers(end)) == Read(end, End)
  {
    if end.receive.Some? { assert DecodeReceive(ReceiveMembers(end.receive.value)) == Read(end.receive.value, End); }
    if end.retirement.Some? {
      assert DecodeRetirement(RetirementMembers(end.retirement.value)) == Read(end.retirement.value, End);
    }
  }

  lemma IdentityDecodes(id: Identity, rest: Members)
    ensures DecodeIdentity(IdentityMembers(id, rest)) == Read(id, rest)
  {
  }

  lemma RenewalTaken(b: Option<BackupRenewal>, rest: Members)
    requires rest.Field? && rest.name == "capabilityId"
    ensures TakeRenewal(RenewalField(b, rest)) == Read(b, rest)
  {
    if b.Some? { RenewalDecodes(b.value); }
  }

  lemma ScopeDecodes(c: Capability, signed: bool)
    ensures var ms, identity := CapabilityMembers(c, signed), IdentityMembers(IdentityOf(c), StackMembers(c, signed));
      && TakeText(ms.tail, "audience") == Read(c.audience, RenewalField(c.backupRenewal, identity))
      && TakeRenewal(RenewalField(c.backupRenewal, identity)) == Read(c.backupRenewal, identity)
  {
    RenewalTaken(c.backupRenewal, IdentityMembers(IdentityOf(c), StackMembers(c, signed)));
  }

  lemma MembersDecode(c: Capability, signed: bool)
    ensures DecodeMembers(CapabilityMembers(c, signed), signed) == Read(if signed then c else Unsigned(c), End)
  {
    var id, stack := IdentityOf(c), StackMembers(c, signed);
    ScopeDecodes(c, signed);
    IdentityDecodes(id, stack);
    ClosingDecodes(ClosingOf(c));
  }

  lemma RenewalExact(ms: Members)
    requires DecodeRenewal(ms).Read?
    ensures ms == RenewalMembers(DecodeRenewal(ms).value)
  {
  }

  lemma IdentityExact(ms: Members)
    requires DecodeIdentity(ms).Read?
    ensures ms == IdentityMembers(DecodeIdentity(ms).value, DecodeIdentity(ms).left)
  {
  }

  lemma ClosingExact(ms: Members)
    requires DecodeClosing(ms).Read?
    ensures ms == ClosingMembers(DecodeClosing(ms).value) && DecodeClosing(ms).left.End?
  {
    var m1 := TakeReceive(ms).left;
    assert ms == ReceiveField(TakeReceive(ms).value, m1);
    assert m1 == RetirementField(TakeRetirement(m1).value, TakeRetirement(m1).left);
  }

  lemma TakeRenewalExact(ms: Members)
    requires TakeRenewal(ms).Read?
    ensures ms == RenewalField(TakeRenewal(ms).value, TakeRenewal(ms).left)
  {
    if TakeRenewal(ms).value.Some? { RenewalExact(ms.value.members); }
  }

  lemma DecodedMembersAreExact(ms: Members, signed: bool)
    requires DecodeMembers(ms, signed).Read?
    ensures ms == CapabilityMembers(DecodeMembers(ms, signed).value, signed)
  {
    var m1 := ms.tail.tail;
    TakeRenewalExact(m1);
    var m2 := TakeRenewal(m1).left;
    IdentityExact(m2);
    var m3 := DecodeIdentity(m2).left;
    var m4 := if signed then m3.tail else m3;
    ClosingExact(m4.tail);
  }

  /** The exact document bytes, with or without the signature member. */
  function Canonical(c: Capability, signed: bool): string {
    Print(Record(CapabilityMembers(c, signed)))
  }

  lemma FieldAppended(out: string, name: string, v: Value, rest: Members)
    ensures out + "," + Quote(name) + ":" + Print(v) + PrintMembers(rest) == out + PrintMembers(Field(name, v, rest))
  {
    var field := Field(name, v, rest);
    assert PrintMembers(field) == "," + PrintField(field) + PrintMembers(rest);
  }

  /** Opens a record with its first text member. */
  method AppendFirst(out: string, name: string, text: string, ghost rest: Members) returns (r: string)
    ensures r + PrintMembers(rest) == out + Print(Record(Field(name, Text(text), rest)))
  {
    r := out + "{" + Quote(name) + ":" + Quote(text);
    ghost var field := Field(name, Text(text), rest);
    assert Print(Record(field)) == "{" + PrintField(field) + PrintMembers(rest);
  }

  /** Appends one more text member; `target` is the buffer the whole record will produce. */
  method AppendText(out: string, name: string, text: string, ghost rest: Members, ghost target: string)
    returns (r: string)
    requires out + PrintMembers(Field(name, Text(text), rest)) == target
    ensures r + PrintMembers(rest) == target
  {
    r := out + "," + Quote(name) + ":" + Quote(text);
    FieldAppended(out, name, Text(text), rest);
  }

  method AppendRenewal(out: string, b: BackupRenewal) returns (r: string)
    ensures r == out + Print(Record(RenewalMembers(b)))
  {
    ghost var target := out + Print(Record(RenewalMembers(b)));
    r := AppendRenewalBinding(out, b, target);
    r := AppendRenewalMeasurement(r, b, target);
  }

  method AppendRenewalBinding(out: string, b: BackupRenewal, ghost target: string) returns (r: string)
    requires target == out + Print(Record(RenewalMembers(b)))
    ensures r + PrintMembers(MeasurementMembers(b)) == target
  {
    ghost var ms := RenewalMembers(b);
    r := AppendFirst(out, "agentId", b.agentId, ms.tail);
    ms := ms.tail;
    r := AppendText(r, "bindingHash", b.bindingHash, ms.tail, target);
    ms := ms.tail;
    r := AppendText(r, "custodyAttestationRef", b.custodyAttestationRef, ms.tail, target);
    ms := ms.tail;
    r := AppendText(r, "deploymentId", b.deploymentId, ms.tail, target);
    ms := ms.tail;
    r := AppendText(r, "freshAttestationRef", b.freshAttestationRef, ms.tail, target);
    ms := ms.tail;
    r := AppendText(r, "jobId", b.jobId, ms.tail, target);
  }

  method AppendRenewalMeasurement(out: string, b: BackupRenewal, ghost target: string) returns (r: string)
    requires out + PrintMembers(MeasurementMembers(b)) == target
    ensures r == target
  {
    ghost var ms := MeasurementMembers(b);
    r := out;
    r := AppendText(r, "measuredAt", b.measuredAt, ms.tail, target);
    ms := ms.tail;
    r := AppendText(r, "planHash", b.planHash, ms.tail, target);
    ms := ms.tail;
    r := AppendText(r, "quotaBytes", b.quotaBytes, ms.tail, target);
    ms := ms.tail;
    r := AppendText(r, "repositoryId", b.repositoryId, ms.tail, target);
    ms := ms.tail;
    r := AppendText(r, "targetRef", b.targetRef, ms.tail, target);
    ms := ms.tail;
    r := AppendText(r, "tenantId", b.tenantId, ms.tail, target);
    ms := ms.tail;
    r := AppendText(r, "usedBytes", b.usedBytes, ms.tail, target);
    r := r + "}";
  }

  method AppendReceive(out: string, t: TransferReceive) returns (r: string)
    ensures r == out + Print(Record(ReceiveMembers(t)))
  {
    ghost var ms, target := ReceiveMembers(t), out + Print(Record(ReceiveMembers(t)));
    r := AppendFirst(out, "candidateSpecHash", t.candidateSpecHash, ms.tail);
    ms := ms.tail;
    r := AppendText(r, "sourceOwnerRef", t.sourceOwnerRef, ms.tail, target);
    ms := ms.tail;
    r := AppendText(r, "step", t.step, ms.tail, target);
    r := r + "}";
  }

  method AppendRetirement(out: string, t: TransferRetirement) returns (r: string)
    ensures r == out + Print(Record(RetirementMembers(t)))
  {
    ghost var ms, target := RetirementMembers(t), out + Print(Record(RetirementMembers(t)));
    r := AppendFirst(out, "baselineSpecHash", t.baselineSpecHash, ms.tail);
    ms := ms.tail;
    r := AppendText(r, "candidateSpecHash", t.candidateSpecHash, ms.tail, target);
    ms := ms.tail;
    r := AppendText(r, "operationId", t.operationId, ms.tail, target);
    ms := ms.tail;
    r := AppendText(r, "outcomeDigest", t.outcomeDigest, ms.tail, target);
    ms := ms.tail;
    r := AppendText(r, "role", t.role, ms.tail, target);
    ms := ms.tail;
    r := AppendText(r, "transferId", t.transferId, ms.tail, target);
    r := r + "}";
  }

  method AppendOperations(out: string, operations: seq<string>) returns (r: string)
    ensures r == out + Print(Texts(operations))
  {
    r := out + "[";
    for index := 0 to |operations|
      invariant r + PrintRest(operations, index) == out + Print(Texts(operations))
    {
      NextOperation(r, operations, index);
      if index > 0 { r := r + ","; }
      r := r + Quote(operations[index]);
    }
    r := r + "]";
  }

  /** What a list still has to print before element `index`. */
  function PrintRest(operations: seq<string>, index: nat): string
    requires index <= |operations|
  {
    if index == 0 then (if operations == [] then "]" else Quote(operations[0]) + PrintItems(operations[1..]))
      else PrintItems(operations[index..])
  }

  lemma NextOperation(r: string, operations: seq<string>, index: nat)
    requires index < |operations|
    ensures r + PrintRest(operations, index) ==
      (if index > 0 then r + "," else r) + Quote(operations[index]) + PrintRest(operations, index + 1)
  {
    assert operations[index..][1..] == operations[index + 1..];
  }

  /** The bytes are one document in which every field stands under its published name. */
  ghost predicate ReadsBack(bytes: string, c: Capability, signed: bool) {
    ParseDocument(bytes).Some? && ReadsAs(ParseDocument(bytes).value, c, signed)
  }

  method AppendCapability(out: string, c: Capability, signed: bool) returns (r: string)
    ensures r == out + Canonical(c, signed)
    ensures ReadsBack(r[|out|..], c, signed)
  {
    CanonicalReadsBack(c, signed);
    assert (out + Canonical(c, signed))[|out|..] == Canonical(c, signed);
    ghost var target := out + Canonical(c, signed);
    ghost var identity := IdentityMembers(IdentityOf(c), StackMembers(c, signed));
    r := AppendScope(out, c, identity);
    r := AppendIdentity(r, c, StackMembers(c, signed), target);
    if signed {
      r := AppendText(r, "signature", c.signature, StackMembers(c, false), target);
    }
    r := AppendText(r, "stackId", c.stackId, ClosingMembers(ClosingOf(c)), target);
    r := AppendClosing(r, c, target);
  }

  method AppendFirstList(out: string, name: string, items: seq<string>, ghost rest: Members) returns (r: string)
    ensures r + PrintMembers(rest) == out + Print(Record(Field(name, Texts(items), rest)))
  {
    r := AppendOperations(out + "{" + Quote(name) + ":", items);
    ghost var field := Field(name, Texts(items), rest);
    assert Print(Record(field)) == "{" + PrintField(field) + PrintMembers(rest);
  }

  /** The operation list, the audience and the optional backup renewal. */
  method AppendScope(out: string, c: Capability, ghost rest: Members) returns (r: string)
    ensures r + PrintMembers(rest) == out + Print(Record(
              Field("allowedOperations", Texts(c.allowedOperations),
                    Field("audience", Text(c.audience), RenewalField(c.backupRenewal, rest)))))
  {
    ghost var tail := Field("audience", Text(c.audience), RenewalField(c.backupRenewal, rest));
    ghost var target := out + Print(Record(Field("allowedOperations", Texts(c.allowedOperations), tail)));
    r := AppendFirstList(out, "allowedOperations", c.allowedOperations, tail);
    r := AppendText(r, "audience", c.audience, RenewalField(c.backupRenewal, rest), target);
    if c.backupRenewal.Some? {
      FieldAppended(r, "backupRenewal", Record(RenewalMembers(c.backupRenewal.value)), rest);
      r := AppendRenewal(r + "," + Quote("backupRenewal") + ":", c.backupRenewal.value);
    }
  }

  method AppendIdentity(out: string, c: Capability, ghost rest: Members, ghost target: string) returns (r: string)
    requires out + PrintMembers(IdentityMembers(IdentityOf(c), rest)) == target
    ensures r + PrintMembers(rest) == target
  {
    ghost var ms := IdentityMembers(IdentityOf(c), rest);
    r := out;
    r := AppendText(r, "capabilityId", c.capabilityId, ms.tail, target);
    ms := ms.tail;
    r := AppendText(r, "expiresAt", c.expiresAt, ms.tail, target);
    ms := ms.tail;
    r := AppendText(r, "issuedAt", c.issuedAt, ms.tail, target);
    ms := ms.tail;
    r := AppendText(r, "issuerId", c.issuerId, ms.tail, target);
    ms := ms.tail;
    r := AppendText(r, "keyId", c.keyId, ms.tail, target);
    ms := ms.tail;
    r := AppendText(r, "ownerRef", c.ownerRef, ms.tail, target);
    ms := ms.tail;
    r := AppendText(r, "rilRef", c.rilRef, ms.tail, target);
    ms := ms.tail;
    r := AppendText(r, "schemaVersion", c.schemaVersion, ms.tail, target);
    ms := ms.tail;
  }

  method AppendClosing(out: string, c: Capability, ghost target: string) returns (r: string)
    requires out + PrintMembers(ClosingMembers(ClosingOf(c))) == target
    ensures r == target
  {
    ghost var last := Field("uiManagerRef", Text(c.uiManagerRef), End);
    ghost var retirement := RetirementField(c.transferRetirement, last);
    r := out;
    if c.transferReceive.Some? {
      FieldAppended(r, "transferReceive", Record(ReceiveMembers(c.transferReceive.value)), retirement);
      r := AppendReceive(r + "," + Quote("transferReceive") + ":", c.transferReceive.value);
    }
    assert r + PrintMembers(retirement) == target;
    if c.transferRetirement.Some? {
      FieldAppended(r, "transferRetirement", Record(RetirementMembers(c.transferRetirement.value)), last);
      r := AppendRetirement(r + "," + Quote("transferRetirement") + ":", c.transferRetirement.value);
    }
    r := AppendText(r, "uiManagerRef", c.uiManagerRef, End, target);
    r := r + "}";
  }

  function ParseDocument(raw: string): Option<Members> {
    match ParseValue(raw)
    case Failed => None
    case Parsed(v, rest) => if rest == "" && v.Record? then Some(v.members) else None
  }

  function ParseCapability(raw: string, signed: bool): Option<Capability> {
    match ParseDocument(raw)
    case None => None
    case Some(ms) => match DecodeMembers(ms, signed) case Refused => None case Read(c, left) => Finish(c, left)
  }

  lemma DocumentRoundTrip(ms: Members)
    ensures ParseDocument(Print(Record(ms))) == Some(ms)
  {
    ParseValueInverts(Record(ms), "");
    assert Print(Record(ms)) + "" == Print(Record(ms));
  }

  lemma ParsedDocumentIsPrinted(raw: string)
    requires ParseDocument(raw).Some?
    ensures raw == Print(Record(ParseDocument(raw).value))
  {
    ParseValueExact(raw);
  }

  // ---- What is printed is found under its name ----

  lemma NamesDiffer()
    ensures "audience" != "issuedAt" && "audience" != "issuerId" && "audience" != "ownerRef"
    ensures "issuedAt" != "issuerId" && "issuedAt" != "ownerRef" && "issuerId" != "ownerRef"
    ensures "backupRenewal" != "schemaVersion"
    ensures "capabilityId" != "uiManagerRef" && "expiresAt" != "signature"
    ensures "deploymentId" != "repositoryId" && "measuredAt" != "quotaBytes" && "planHash" != "tenantId"
    ensures "targetRef" != "usedBytes"
  {
    assert "audience"[0] == 'a' && "issuedAt"[0] == 'i' && "ownerRef"[0] == 'o' && "issuerId"[0] == 'i';
    assert "issuedAt"[5] == 'd' && "issuerId"[5] == 'r';
    assert "backupRenewal"[0] == 'b' && "schemaVersion"[0] == 's' && "capabilityId"[0] == 'c';
    assert "uiManagerRef"[0] == 'u' && "expiresAt"[0] == 'e' && "signature"[0] == 's';
    assert "deploymentId"[0] == 'd' && "repositoryId"[0] == 'r' && "measuredAt"[0] == 'm' && "quotaBytes"[0] == 'q';
    assert "planHash"[0] == 'p' && "tenantId"[0] == 't' && "targetRef"[0] == 't' && "usedBytes"[0] == 'u';
  }

  /** A text member, or what the rest says. */
  function Or(n: string, name: string, text: string, rest: Option<Value>): Option<Value> {
    if n == name then Some(Text(text)) else rest
  }

  lemma FindText(name: string, text: string, rest: Members, n: string)
    ensures Find(Field(name, Text(text), rest), n) == Or(n, name, text, Find(rest, n))
  {
  }

  lemma MeasurementFinds(b: BackupRenewal, n: string)
    ensures Find(MeasurementMembers(b), n) ==
      Or(n, "measuredAt", b.measuredAt, Or(n, "planHash", b.planHash, Or(n, "quotaBytes", b.quotaBytes,
      Or(n, "repositoryId", b.repositoryId, Or(n, "targetRef", b.targetRef, Or(n, "tenantId", b.tenantId,
      Or(n, "usedBytes", b.usedBytes, None)))))))
  {
    var m6 := Field("usedBytes", Text(b.usedBytes), End);
    var m5 := Field("tenantId", Text(b.tenantId), m6);
    var m4 := Field("targetRef", Text(b.targetRef), m5);
    var m3 := Field("repositoryId", Text(b.repositoryId), m4);
    var m2 := Field("quotaBytes", Text(b.quotaBytes), m3);
    var m1 := Field("planHash", Text(b.planHash), m2);
    FindText("measuredAt", b.measuredAt, m1, n);
    FindText("planHash", b.planHash, m2, n);
    FindText("quotaBytes", b.quotaBytes, m3, n);
    FindText("repositoryId", b.repositoryId, m4, n);
    FindText("targetRef", b.targetRef, m5, n);
    FindText("tenantId", b.tenantId, m6, n);
    FindText("usedBytes", b.usedBytes, End, n);
  }

  lemma RenewalFinds(b: BackupRenewal, n: string)
    ensures Find(RenewalMembers(b), n) ==
      Or(n, "agentId", b.agentId, Or(n, "bindingHash", b.bindingHash,
      Or(n, "custodyAttestationRef", b.custodyAttestationRef, Or(n, "deploymentId", b.deploymentId,
      Or(n, "freshAttestationRef", b.freshAttestationRef, Or(n, "jobId", b.jobId,
      Find(MeasurementMembers(b), n)))))))
  {
    var m5 := Field("jobId", Text(b.jobId), MeasurementMembers(b));
    var m4 := Field("freshAttestationRef", Text(b.freshAttestationRef), m5);
    var m3 := Field("deploymentId", Text(b.deploymentId), m4);
    var m2 := Field("custodyAttestationRef", Text(b.custodyAttestationRef), m3);
    var m1 := Field("bindingHash", Text(b.bindingHash), m2);
    FindText("agentId", b.agentId, m1, n);
    FindText("bindingHash", b.bindingHash, m2, n);
    FindText("custodyAttestationRef", b.custodyAttestationRef, m3, n);
    FindText("deploymentId", b.deploymentId, m4, n);
    FindText("freshAttestationRef", b.freshAttestationRef, m5, n);
    FindText("jobId", b.jobId, MeasurementMembers(b), n);
  }

  lemma RenewalByName(b: BackupRenewal)
    ensures ReadsRenewal(RenewalMembers(b), b)
  {
    NamesDiffer();
    forall n ensures Find(RenewalMembers(b), n) ==
      Or(n, "agentId", b.agentId, Or(n, "bindingHash", b.bindingHash,
      Or(n, "custodyAttestationRef", b.custodyAttestationRef, Or(n, "deploymentId", b.deploymentId,
      Or(n, "freshAttestationRef", b.freshAttestationRef, Or(n, "jobId", b.jobId,
      Or(n, "measuredAt", b.measuredAt, Or(n, "planHash", b.planHash, Or(n, "quotaBytes", b.quotaBytes,
      Or(n, "repositoryId", b.repositoryId, Or(n, "targetRef", b.targetRef, Or(n, "tenantId", b.tenantId,
      Or(n, "usedBytes", b.usedBytes, None)))))))))))))
    {
      RenewalFinds(b, n);
      MeasurementFinds(b, n);
    }
  }

  lemma ReceiveByName(t: TransferReceive)
    ensures ReadsReceive(ReceiveMembers(t), t)
  {
    var m1 := ReceiveMembers(t).tail;
    forall n ensures Find(ReceiveMembers(t), n) ==
      Or(n, "candidateSpecHash", t.candidateSpecHash, Or(n, "sourceOwnerRef", t.sourceOwnerRef,
      Or(n, "step", t.step, None)))
    {
      FindText("candidateSpecHash", t.candidateSpecHash, m1, n);
      FindText("sourceOwnerRef", t.sourceOwnerRef, m1.tail, n);
      FindText("step", t.step, End, n);
    }
  }

  lemma RetirementByName(t: TransferRetirement)
    ensures ReadsRetirement(RetirementMembers(t), t)
  {
    var m1 := RetirementMembers(t).tail;
    var m2 := m1.tail;
    var m3 := m2.tail;
    forall n ensures Find(RetirementMembers(t), n) ==
      Or(n, "baselineSpecHash", t.baselineSpecHash, Or(n, "candidateSpecHash", t.candidateSpecHash,
      Or(n, "operationId", t.operationId, Or(n, "outcomeDigest", t.outcomeDigest, Or(n, "role", t.role,
      Or(n, "transferId", t.transferId, None))))))
    {
      FindText("baselineSpecHash", t.baselineSpecHash, m1, n);
      FindText("candidateSpecHash", t.candidateSpecHash, m2, n);
      FindText("operationId", t.operationId, m3, n);
      FindText("outcomeDigest", t.outcomeDigest, m3.tail, n);
      FindText("role", t.role, m3.tail.tail, n);
      FindText("transferId", t.transferId, End, n);
    }
  }

  lemma IdentityFinds(id: Identity, rest: Members, n: string)
    ensures Find(IdentityMembers(id, rest), n) ==
      Or(n, "capabilityId", id.capabilityId, Or(n, "expiresAt", id.expiresAt, Or(n, "issuedAt", id.issuedAt,
      Or(n, "issuerId", id.issuerId, Or(n, "keyId", id.keyId, Or(n, "ownerRef", id.ownerRef,
      Or(n, "rilRef", id.rilRef, Or(n, "schemaVersion", id.schemaVersion, Find(rest, n)))))))))
  {
    var m7 := Field("schemaVersion", Text(id.schemaVersion), rest);
    var m6 := Field("rilRef", Text(id.rilRef), m7);
    var m5 := Field("ownerRef", Text(id.ownerRef), m6);
    var m4 := Field("keyId", Text(id.keyId), m5);
    var m3 := Field("issuerId", Text(id.issuerId), m4);
    var m2 := Field("issuedAt", Text(id.issuedAt), m3);
    var m1 := Field("expiresAt", Text(id.expiresAt), m2);
    FindText("capabilityId", id.capabilityId, m1, n);
    FindText("expiresAt", id.expiresAt, m2, n);
    FindText("issuedAt", id.issuedAt, m3, n);
    FindText("issuerId", id.issuerId, m4, n);
    FindText("keyId", id.keyId, m5, n);
    FindText("ownerRef", id.ownerRef, m6, n);
    FindText("rilRef", id.rilRef, m7, n);
    FindText("schemaVersion", id.schemaVersion, rest, n);
  }

  /** An optional record member, or what the rest says. */
  function OrRecord(n: string, name: string, record: Option<Members>, rest: Option<Value>): Option<Value> {
    if n == name && record.Some? then Some(Record(record.value)) else rest
  }

  function RenewalOf(c: Capability): Option<Members> {
    match c.backupRenewal case None => None case Some(b) => Some(RenewalMembers(b))
  }
  function ReceiveOf(c: Capability): Option<Members> {
    match c.transferReceive case None => None case Some(t) => Some(ReceiveMembers(t))
  }
  function RetirementOf(c: Capability): Option<Members> {
    match c.transferRetirement case None => None case Some(t) => Some(RetirementMembers(t))
  }

  lemma StackFinds(c: Capability, signed: bool, n: string)
    ensures Find(StackMembers(c, signed), n) ==
      (if signed && n == "signature" then Some(Text(c.signature)) else Or(n, "stackId", c.stackId,
      OrRecord(n, "transferReceive", ReceiveOf(c), OrRecord(n, "transferRetirement", RetirementOf(c),
      Or(n, "uiManagerRef", c.uiManagerRef, None)))))
  {
    var last := Field("uiManagerRef", Text(c.uiManagerRef), End);
    var retirement := RetirementField(c.transferRetirement, last);
    FindText("uiManagerRef", c.uiManagerRef, End, n);
    assert Find(retirement, n) == OrRecord(n, "transferRetirement", RetirementOf(c), Find(last, n));
    assert Find(ReceiveField(c.transferReceive, retirement), n) ==
      OrRecord(n, "transferReceive", ReceiveOf(c), Find(retirement, n));
    FindText("stackId", c.stackId, ClosingMembers(ClosingOf(c)), n);
  }

  lemma CapabilityFinds(c: Capability, signed: bool, n: string)
    ensures Find(CapabilityMembers(c, signed), n) ==
      if n == "allowedOperations" then Some(Texts(c.allowedOperations))
      else Or(n, "audience", c.audience, OrRecord(n, "backupRenewal", RenewalOf(c),
      Find(IdentityMembers(IdentityOf(c), StackMembers(c, signed)), n)))
  {
    var identity := IdentityMembers(IdentityOf(c), StackMembers(c, signed));
    var renewal := RenewalField(c.backupRenewal, identity);
    assert Find(renewal, n) == OrRecord(n, "backupRenewal", RenewalOf(c), Find(identity, n));
    FindText("audience", c.audience, renewal, n);
  }

  /** Everything that can be found in the document. */
  function Found(c: Capability, signed: bool, n: string): Option<Value> {
    if n == "allowedOperations" then Some(Texts(c.allowedOperations))
    else
      Or(n, "audience", c.audience, OrRecord(n, "backupRenewal", RenewalOf(c),
      Or(n, "capabilityId", c.capabilityId, Or(n, "expiresAt", c.expiresAt, Or(n, "issuedAt", c.issuedAt,
      Or(n, "issuerId", c.issuerId, Or(n, "keyId", c.keyId, Or(n, "ownerRef", c.ownerRef,
      Or(n, "rilRef", c.rilRef, Or(n, "schemaVersion", c.schemaVersion, FoundLast(c, signed, n)))))))))))
  }

  function FoundLast(c: Capability, signed: bool, n: string): Option<Value> {
    if signed && n == "signature" then Some(Text(c.signature))
    else
      Or(n, "stackId", c.stackId, OrRecord(n, "transferReceive", ReceiveOf(c),
      OrRecord(n, "transferRetirement", RetirementOf(c), Or(n, "uiManagerRef", c.uiManagerRef, None))))
  }

  lemma DocumentFinds(c: Capability, signed: bool, n: string)
    ensures Find(CapabilityMembers(c, signed), n) == Found(c, signed, n)
  {
    CapabilityFinds(c, signed, n);
    IdentityFinds(IdentityOf(c), StackMembers(c, signed), n);
    StackFinds(c, signed, n);
  }

  lemma TextsAreFound(c: Capability, signed: bool)
    ensures Found(c, signed, "audience") == Some(Text(c.audience))
    ensures Found(c, signed, "capabilityId") == Some(Text(c.capabilityId))
    ensures Found(c, signed, "expiresAt") == Some(Text(c.expiresAt))
    ensures Found(c, signed, "issuedAt") == Some(Text(c.issuedAt))
    ensures Found(c, signed, "issuerId") == Some(Text(c.issuerId))
    ensures Found(c, signed, "keyId") == Some(Text(c.keyId))
  {
    NamesDiffer();
  }

  lemma MoreTextsAreFound(c: Capability, signed: bool)
    ensures Found(c, signed, "ownerRef") == Some(Text(c.ownerRef))
    ensures Found(c, signed, "rilRef") == Some(Text(c.rilRef))
    ensures Found(c, signed, "schemaVersion") == Some(Text(c.schemaVersion))
    ensures Found(c, signed, "stackId") == Some(Text(c.stackId))
    ensures Found(c, signed, "uiManagerRef") == Some(Text(c.uiManagerRef))
    ensures Found(c, signed, "signature") == if signed then Some(Text(c.signature)) else None
  {
    NamesDiffer();
  }

  function Recorded(ms: Option<Members>): Option<Value> { match ms case None => None case Some(m) => Some(Record(m)) }

  lemma OptionsAreFound(c: Capability, signed: bool)
    ensures Found(c, signed, "backupRenewal") == Recorded(RenewalOf(c))
    ensures Found(c, signed, "transferReceive") == Recorded(ReceiveOf(c))
    ensures Found(c, signed, "transferRetirement") == Recorded(RetirementOf(c))
  {
    NamesDiffer();
  }

  lemma PrintedTexts(c: Capability, signed: bool)
    ensures ReadsTexts(CapabilityMembers(c, signed), c)
  {
    var ms := CapabilityMembers(c, signed);
    forall n ensures Find(ms, n) == Found(c, signed, n) { DocumentFinds(c, signed, n); }
    TextsAreFound(c, signed);
    MoreTextsAreFound(c, signed);
  }

  lemma PrintedOptions(c: Capability, signed: bool)
    ensures ReadsOptions(CapabilityMembers(c, signed), c)
  {
    DocumentFinds(c, signed, "backupRenewal");
    DocumentFinds(c, signed, "transferReceive");
    DocumentFinds(c, signed, "transferRetirement");
    OptionsAreFound(c, signed);
    if c.backupRenewal.Some? { RenewalByName(c.backupRenewal.value); }
    if c.transferReceive.Some? { ReceiveByName(c.transferReceive.value); }
    if c.transferRetirement.Some? { RetirementByName(c.transferRetirement.value); }
  }

  lemma PrintedNames(c: Capability, signed: bool)
    ensures OnlyNames(CapabilityMembers(c, signed), CAPABILITY_NAMES)
  {
    forall n | Find(CapabilityMembers(c, signed), n).Some? ensures n in CAPABILITY_NAMES {
      DocumentFinds(c, signed, n);
    }
  }

  /** Every field of a capability is printed under its published name, and nothing else is printed. */
  lemma PrintedByName(c: Capability, signed: bool)
    ensures ReadsAs(CapabilityMembers(c, signed), c, signed)
  {
    PrintedTexts(c, signed);
    PrintedOptions(c, signed);
    PrintedNames(c, signed);
    DocumentFinds(c, signed, "allowedOperations");
    DocumentFinds(c, signed, "signature");
    MoreTextsAreFound(c, signed);
  }

  lemma CanonicalReadsBack(c: Capability, signed: bool)
    ensures ReadsBack(Canonical(c, signed), c, signed)
  {
    DocumentRoundTrip(CapabilityMembers(c, signed));
    PrintedByName(c, signed);
  }

  /** The parser recovers every capability from its canonical bytes. */
  lemma CanonicalRoundTrip(c: Capability, signed: bool)
    ensures ParseCapability(Canonical(c, signed), signed) == Some(if signed then c else Unsigned(c))
  {
    DocumentRoundTrip(CapabilityMembers(c, signed));
    MembersDecode(c, signed);
  }

  /** And it accepts nothing but canonical bytes. */
  lemma ParsedBytesAreCanonical(raw: string, signed: bool)
    requires ParseCapability(raw, signed).Some?
    ensures raw == Canonical(ParseCapability(raw, signed).value, signed)
  {
    ParseValueExact(raw);
    DecodedMembersAreExact(ParseDocument(raw).value, signed);
  }

  const SCHEMA_VERSION := "stackkit.advanced-capability/v1"

  /** The bytes an issuer signs, before hashing. */
  function SigningMessage(unsigned: string): string { SCHEMA_VERSION + ['\0'] + unsigned }

  /** One signed message belongs to one capability, up to its signature. */
  lemma SignedBytesIdentifyCapability(a: Capability, b: Capability)
    ensures SigningMessage(Canonical(a, false)) == SigningMessage(Canonical(b, false)) <==> Unsigned(a) == Unsigned(b)
    ensures Canonical(a, true) == Canonical(b, true) <==> a == b
  {
    var x, y := Canonical(a, false), Canonical(b, false);
    if SigningMessage(x) == SigningMessage(y) {
      assert SigningMessage(x)[|SCHEMA_VERSION| + 1..] == x && SigningMessage(y)[|SCHEMA_VERSION| + 1..] == y;
    }
    CanonicalRoundTrip(a, false);
    CanonicalRoundTrip(b, false);
    CanonicalRoundTrip(a, true);
    CanonicalRoundTrip(b, true);
    assert Unsigned(a) == Unsigned(b) ==> CapabilityMembers(a, false) == CapabilityMembers(b, false);
  }
}
