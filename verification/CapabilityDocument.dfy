/** The document of a capability, told by names and order alone, and the decoder that accepts nothing else. */
module CapabilityDocument {
  import opened Wrappers
  import opened CapabilityJson
  import opened CapabilityCodec
  import opened MemberOrder

  lemma {:induction false} FoundInOrder(ms: Members, name: string)
    requires MembersInOrder(ms) && Find(ms, name).Some?
    ensures InOrder(Find(ms, name).value)
    decreases ms
  {
    if ms.name != name { FoundInOrder(ms.tail, name); }
  }

  lemma RenewalIsUnique(x: Members, y: Members, b: BackupRenewal)
    requires MembersInOrder(x) && MembersInOrder(y) && ReadsRenewal(x, b) && ReadsRenewal(y, b)
    ensures x == y
  {
    forall n ensures Find(x, n) == Find(y, n) {}
    OrderedMembersAgree(x, y);
  }

  lemma ReceiveIsUnique(x: Members, y: Members, t: TransferReceive)
    requires MembersInOrder(x) && MembersInOrder(y) && ReadsReceive(x, t) && ReadsReceive(y, t)
    ensures x == y
  {
    forall n ensures Find(x, n) == Find(y, n) {}
    OrderedMembersAgree(x, y);
  }

  lemma RetirementIsUnique(x: Members, y: Members, t: TransferRetirement)
    requires MembersInOrder(x) && MembersInOrder(y) && ReadsRetirement(x, t) && ReadsRetirement(y, t)
    ensures x == y
  {
    forall n ensures Find(x, n) == Find(y, n) {}
    OrderedMembersAgree(x, y);
  }

  lemma OptionsAreUnique(x: Members, y: Members, c: Capability)
    requires MembersInOrder(x) && MembersInOrder(y) && ReadsOptions(x, c) && ReadsOptions(y, c)
    ensures Find(x, "backupRenewal") == Find(y, "backupRenewal")
    ensures Find(x, "transferReceive") == Find(y, "transferReceive")
    ensures Find(x, "transferRetirement") == Find(y, "transferRetirement")
  {
    if c.backupRenewal.Some? {
      FoundInOrder(x, "backupRenewal");
      FoundInOrder(y, "backupRenewal");
      RenewalIsUnique(Find(x, "backupRenewal").value.members, Find(y, "backupRenewal").value.members,
        c.backupRenewal.value);
    }
    if c.transferReceive.Some? {
      FoundInOrder(x, "transferReceive");
      FoundInOrder(y, "transferReceive");
      ReceiveIsUnique(Find(x, "transferReceive").value.members, Find(y, "transferReceive").value.members,
        c.transferReceive.value);
    }
    if c.transferRetirement.Some? {
      FoundInOrder(x, "transferRetirement");
      FoundInOrder(y, "transferRetirement");
      RetirementIsUnique(Find(x, "transferRetirement").value.members, Find(y, "transferRetirement").value.members,
        c.transferRetirement.value);
    }
  }

  const TEXT_NAMES := {"audience", "capabilityId", "expiresAt", "issuedAt", "issuerId", "keyId", "ownerRef", "rilRef",
    "schemaVersion", "stackId", "uiManagerRef"}
  const OPTION_NAMES := {"backupRenewal", "transferReceive", "transferRetirement"}

  lemma TextsAreUnique(x: Members, y: Members, c: Capability, n: string)
    requires ReadsTexts(x, c) && ReadsTexts(y, c) && n in TEXT_NAMES
    ensures Find(x, n) == Find(y, n)
  {
  }

  lemma OtherNames(n: string)
    requires n in CAPABILITY_NAMES
    ensures n in TEXT_NAMES || n in OPTION_NAMES || n == "allowedOperations" || n == "signature"
  {
  }

  lemma OptionIsUnique(x: Members, y: Members, c: Capability, n: string)
    requires MembersInOrder(x) && MembersInOrder(y) && ReadsOptions(x, c) && ReadsOptions(y, c) && n in OPTION_NAMES
    ensures Find(x, n) == Find(y, n)
  {
    OptionsAreUnique(x, y, c);
  }

  lemma FindsAgree(x: Members, y: Members, c: Capability, signed: bool, n: string)
    requires MembersInOrder(x) && MembersInOrder(y) && ReadsAs(x, c, signed) && ReadsAs(y, c, signed)
    ensures Find(x, n) == Find(y, n)
  {
    if n in TEXT_NAMES {
      TextsAreUnique(x, y, c, n);
    } else if n in OPTION_NAMES {
      OptionIsUnique(x, y, c, n);
    } else if n in CAPABILITY_NAMES {
      OtherNames(n);
    } else {
      assert Find(x, n) == None && Find(y, n) == None;
    }
  }

  /** A capability has only one document with ordered members. */
  lemma DocumentIsUnique(x: Members, y: Members, c: Capability, signed: bool)
    requires MembersInOrder(x) && MembersInOrder(y) && ReadsAs(x, c, signed) && ReadsAs(y, c, signed)
    ensures x == y
  {
    forall n ensures Find(x, n) == Find(y, n) { FindsAgree(x, y, c, signed, n); }
    OrderedMembersAgree(x, y);
  }

  /** One object whose member names increase in every record, with exactly the fields of the capability by name. */
  ghost predicate IsDocument(raw: string, c: Capability, signed: bool) {
    && ParseDocument(raw).Some? && MembersInOrder(ParseDocument(raw).value)
    && ReadsAs(ParseDocument(raw).value, c, signed)
  }

  /** The canonical bytes are that document, and there are no others. */
  lemma CanonicalIsTheDocument(raw: string, c: Capability, signed: bool)
    ensures raw == Canonical(c, signed) <==> IsDocument(raw, c, signed)
  {
    var ms := CapabilityMembers(c, signed);
    DocumentRoundTrip(ms);
    PrintedByName(c, signed);
    PrintedMembersIncrease(c, signed);
    if IsDocument(raw, c, signed) {
      DocumentIsUnique(ParseDocument(raw).value, ms, c, signed);
      ParsedDocumentIsPrinted(raw);
    }
  }

  const MAX_DOCUMENT_BYTES: nat := 65536

  /** `library` is what the standard JSON decoder made of the bytes, `valid` the claim and signature checks.
      Accepted is exactly the one document of the capability the library read, and only the parser's own answer can
      come out. */
  method DecodeCapability(raw: string, library: Option<Capability>, valid: Capability -> bool)
    returns (result: Option<Capability>)
    ensures result.Some? <==>
      |raw| <= MAX_DOCUMENT_BYTES && library.Some? && valid(library.value) && IsDocument(raw, library.value, true)
    ensures result.Some? ==> result == library == ParseCapability(raw, true)
  {
    if raw == "" || |raw| > MAX_DOCUMENT_BYTES || library.None? || !valid(library.value) { return None; }
    CanonicalRoundTrip(library.value, true);
    CanonicalIsTheDocument(raw, library.value, true);
    var printed := AppendCapability("", library.value, true);
    assert printed == Canonical(library.value, true);
    if raw != printed { return None; }
    return library;
  }
}
