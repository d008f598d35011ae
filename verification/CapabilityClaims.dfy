/** The time-independent claim rules of a capability: at most one scope, and a scope takes the whole capability. */
module CapabilityClaims {
  import opened Wrappers
  import opened Ordering
  import opened CapabilityCodec

  const RETIRE := "application-transfer.retire"
  const RECEIVE := "application-transfer.receive"
  const RENEW := "restore.drill"
  const MAX_LIFETIME := 2592000
  const SCOPED_LIFETIME := 900

  /** Patterns, operation names, references and times; `renewal` also sees the time of issue. */
  datatype Formats = Formats(
    capability: Capability -> bool, issuer: string -> bool, operation: string -> bool, reference: string -> bool,
    time: string -> Option<int>, retirement: TransferRetirement -> bool, receive: TransferReceive -> bool,
    renewal: (BackupRenewal, int) -> bool)

  /** At least one operation, all supported, in strictly increasing order. */
  ghost predicate OperationSet(k: Formats, operations: seq<string>) {
    operations != [] && StrictlySorted(operations, Less) && forall o :: o in operations ==> k.operation(o)
  }

  ghost predicate Lifetime(k: Formats, c: Capability, seconds: int) {
    k.time(c.issuedAt).Some? && k.time(c.expiresAt).Some? &&
      seconds == k.time(c.expiresAt).value - k.time(c.issuedAt).value
  }

  /** The four shapes a capability can have. */
  datatype Scope = General | Retirement | Receipt | Renewal

  /** A scoped capability allows its one operation, carries its one record, and is short-lived. */
  ghost predicate HasScope(k: Formats, c: Capability, scope: Scope, seconds: int) {
    && c.transferRetirement.Some? == (scope == Retirement) && c.transferReceive.Some? == (scope == Receipt)
    && c.backupRenewal.Some? == (scope == Renewal)
    && match scope
       case General => RETIRE !in c.allowedOperations && RECEIVE !in c.allowedOperations
       case Retirement =>
         c.allowedOperations == [RETIRE] && seconds <= SCOPED_LIFETIME && k.retirement(c.transferRetirement.value)
         && c.transferRetirement.value.baselineSpecHash != c.transferRetirement.value.candidateSpecHash
       case Receipt =>
         c.allowedOperations == [RECEIVE] && seconds <= SCOPED_LIFETIME && k.receive(c.transferReceive.value)
       case Renewal =>
         c.allowedOperations == [RENEW] && seconds <= SCOPED_LIFETIME && k.time(c.issuedAt).Some?
         && k.renewal(c.backupRenewal.value, k.time(c.issuedAt).value)
  }

  ghost predicate ClaimsAccepted(k: Formats, c: Capability) {
    && k.capability(c) && k.issuer(c.issuerId) && OperationSet(k, c.allowedOperations)
    && k.reference(c.uiManagerRef) && k.reference(c.rilRef)
    && exists seconds, scope :: Lifetime(k, c, seconds) && 0 < seconds <= MAX_LIFETIME && HasScope(k, c, scope, seconds)
  }

  /** The loop over the operations: sorted, supported, no neighbour repeated. */
  method ValidateOperations(k: Formats, operations: seq<string>) returns (ok: bool)
    ensures ok <==> OperationSet(k, operations)
  {
    if |operations| == 0 { return false; }
    for i := 1 to |operations|
      invariant forall h, j :: 0 <= h < j < i && h == j - 1 ==> !Less(operations[j], operations[h])
    {
      if Less(operations[i], operations[i - 1]) {
        LessAsymmetric(operations[i], operations[i - 1]);
        return false;
      }
    }
    for i := 0 to |operations|
      invariant forall j :: 0 <= j < i ==> k.operation(operations[j])
      invariant forall h, j :: 0 <= h < j < i && h == j - 1 ==> operations[h] != operations[j]
    {
      if !k.operation(operations[i]) { return false; }
      if i > 0 && operations[i - 1] == operations[i] {
        LessIrreflexive(operations[i]);
        return false;
      }
    }
    forall h, j | 0 <= h < j < |operations| && h == j - 1 ensures Less(operations[h], operations[j]) {
      LessTotal(operations[h], operations[j]);
    }
    AdjacentStringsSorted(operations);
    return true;
  }

  /** The three scope checks, in the order they are made. */
  method ValidateScope(k: Formats, c: Capability, issued: int, seconds: int) returns (ok: bool)
    requires k.time(c.issuedAt) == Some(issued) && c.allowedOperations != []
    ensures ok <==> exists scope :: HasScope(k, c, scope, seconds)
  {
    ScopeIsDecided(k, c, seconds);
    OnlyOperation(c.allowedOperations);
    var retire, receive := RETIRE in c.allowedOperations, RECEIVE in c.allowedOperations;
    if retire || c.transferRetirement.Some? {
      if !retire || |c.allowedOperations| != 1 || c.transferRetirement == None || c.backupRenewal.Some? ||
        seconds > SCOPED_LIFETIME {
        return false;
      }
      if !k.retirement(c.transferRetirement.value) { return false; }
      if c.transferRetirement.value.baselineSpecHash == c.transferRetirement.value.candidateSpecHash { return false; }
    }
    if receive || c.transferReceive.Some? {
      if !receive || |c.allowedOperations| != 1 || c.transferReceive == None || c.transferRetirement.Some? ||
        c.backupRenewal.Some? || seconds > SCOPED_LIFETIME {
        return false;
      }
      if !k.receive(c.transferReceive.value) { return false; }
    }
    if c.backupRenewal.Some? {
      if |c.allowedOperations| != 1 || c.allowedOperations[0] != RENEW || seconds > SCOPED_LIFETIME { return false; }
      if !k.renewal(c.backupRenewal.value, issued) { return false; }
    }
    assert HasScope(k, c, ScopeOf(c), seconds);
    return true;
  }

  lemma OnlyOperation(operations: seq<string>)
    ensures forall o :: o in operations && |operations| == 1 ==> operations == [o]
    ensures RETIRE != RECEIVE && RETIRE != RENEW && RECEIVE != RENEW
  {
    assert RETIRE[0] != RENEW[0] && RECEIVE[0] != RENEW[0] && |RETIRE| != |RECEIVE|;
  }

  /** The record a capability carries decides its scope. */
  function ScopeOf(c: Capability): Scope {
    if c.transferRetirement.Some? then Retirement else if c.transferReceive.Some? then Receipt
    else if c.backupRenewal.Some? then Renewal else General
  }

  lemma ScopeIsDecided(k: Formats, c: Capability, seconds: int)
    ensures forall scope :: HasScope(k, c, scope, seconds) ==> scope == ScopeOf(c)
  {
  }

  method ValidateClaims(k: Formats, c: Capability) returns (ok: bool)
    ensures ok <==> ClaimsAccepted(k, c)
  {
    if !k.capability(c) || !k.issuer(c.issuerId) { return false; }
    ok := ValidateOperations(k, c.allowedOperations);
    if !ok { return; }
    if !k.reference(c.uiManagerRef) || !k.reference(c.rilRef) { return false; }
    var issued, expires := k.time(c.issuedAt), k.time(c.expiresAt);
    if issued == None || expires == None { return false; }
    var seconds := expires.value - issued.value;
    assert Lifetime(k, c, seconds);
    if seconds <= 0 || seconds > MAX_LIFETIME { return false; }
    ok := ValidateScope(k, c, issued.value, seconds);
  }

  /** Accepted claims never mix authorities: a transfer or renewal record, and a transfer
      operation, is the whole capability. */
  lemma AcceptedScopesExcludeEachOther(k: Formats, c: Capability)
    requires ClaimsAccepted(k, c)
    ensures c.transferRetirement.Some? <==> RETIRE in c.allowedOperations
    ensures c.transferReceive.Some? <==> RECEIVE in c.allowedOperations
    ensures c.transferRetirement.Some? || c.transferReceive.Some? || c.backupRenewal.Some? ==>
      |c.allowedOperations| == 1
    ensures !(c.transferRetirement.Some? && c.transferReceive.Some?)
    ensures c.backupRenewal.Some? ==> c.transferRetirement == None && c.transferReceive == None
  {
    var seconds, scope :| Lifetime(k, c, seconds) && 0 < seconds <= MAX_LIFETIME && HasScope(k, c, scope, seconds);
    assert [RETIRE][0] == RETIRE && [RECEIVE][0] == RECEIVE && [RENEW][0] == RENEW;
    OnlyOperation(c.allowedOperations);
  }
}
