/**
 * The provider client's protocol (src/porkbun.rs): retrieve, create, edit,
 * and `create_or_edit`, which reads the records for a (domain, name, type)
 * and then either creates one or edits the first one found.
 */
module PorkbunClient {
  import opened Wrappers
  import opened Numerals
  import opened Porkbun
  import opened PorkbunServer

  /** What one protocol run returns, the provider state it leaves, and the calls it issues. */
  datatype Exchange = Exchange(result: Result<(string, bool), Error>, after: State, calls: seq<Call>)

  /** The records a healthy retrieve finds for `p`, as hosted. */
  function Fetched(s: State, p: Params): seq<Record> {
    Matching(s.store, p.domain, Qualify(p.name, p.domain), p.recordType)
  }

  /** `edit`: refuses a record without a domain before any call; otherwise one edit call. */
  function EditSpec(s: State, body: Record, fault: Fault): (Result<(), Error>, State, seq<Call>) {
    match body.domain
    case None => (Err(RecordHasNoDomain), s, [])
    case Some(domain) =>
      var (reply, s') := EditStep(s, domain, body, fault);
      (EditOutcome(reply), s', [EditCall(domain, body)])
  }

  /** `create_or_edit` as a function of the provider state and of how each call fares. */
  function CreateOrEditSpec(s: State, numericIds: bool, p: Params, read: Fault, write: Fault): Exchange {
    var retrieve := [RetrieveCall(p.domain, p.name, p.recordType)];
    match RetrievedRecords(RetrieveStep(s, p.domain, p.name, p.recordType, read), p.domain)
    case Err(e) => Exchange(Err(e), s, retrieve)
    case Ok(records) =>
      if records == [] then
        var (reply, s') := CreateStep(s, numericIds, p, write);
        var result := match CreateOutcome(reply)
          case Ok(id) => Ok((id, true))
          case Err(e) => Err(e);
        Exchange(result, s', retrieve + [CreateCall(p)])
      else
        var record := records[0];
        if !IsModified(record, p) then Exchange(Ok((record.id, false)), s, retrieve)
        else
          match Modify(record, p)
          case Err(e) => Exchange(Err(e), s, retrieve)
          case Ok(body) =>
            var (edited, s', calls) := EditSpec(s, body, write);
            Exchange(if edited.Ok? then Ok((record.id, true)) else Err(edited.error), s', retrieve + calls)
  }

  // ---------------------------------------------------------------------
  // The client operations against a stateful provider.

  method RetrieveByNameType(server: Provider, domain: string, name: string, recordType: RecordType, fault: Fault)
    returns (r: Result<seq<Record>, Error>)
    modifies server`log
    ensures server.log == old(server.log) + [RetrieveCall(domain, name, recordType)]
    ensures r == RetrievedRecords(RetrieveStep(server.Now(), domain, name, recordType, fault), domain)
  {
    var reply := server.RetrieveByNameType(domain, name, recordType, fault);
    r := RetrievedRecords(reply, domain);
  }

  method Create(server: Provider, p: Params, fault: Fault) returns (r: Result<string, Error>)
    modifies server`store, server`nextId, server`log
    ensures server.log == old(server.log) + [CreateCall(p)]
    ensures var (reply, s') := CreateStep(old(server.Now()), server.numericIds, p, fault);
      server.Now() == s' && r == CreateOutcome(reply)
  {
    var reply := server.Create(p, fault);
    r := CreateOutcome(reply);
  }

  method Edit(server: Provider, record: Record, fault: Fault) returns (r: Result<(), Error>)
    modifies server`store, server`log
    ensures var (result, s', calls) := EditSpec(old(server.Now()), record, fault);
      r == result && server.Now() == s' && server.log == old(server.log) + calls
  {
    if record.domain.None? {
      return Err(RecordHasNoDomain);
    }
    var reply := server.Edit(record.domain.value, record, fault);
    r := EditOutcome(reply);
  }

  method CreateOrEdit(server: Provider, p: Params, read: Fault, write: Fault) returns (r: Result<(string, bool), Error>)
    modifies server`store, server`nextId, server`log
    ensures var e := CreateOrEditSpec(old(server.Now()), server.numericIds, p, read, write);
      r == e.result && server.Now() == e.after && server.log == old(server.log) + e.calls
  {
    var fetched := RetrieveByNameType(server, p.domain, p.name, p.recordType, read);
    if fetched.Err? {
      return Err(fetched.error);
    }
    var records := fetched.value;
    if records == [] {
      var created := Create(server, p, write);
      if created.Err? {
        return Err(created.error);
      }
      return Ok((created.value, true));
    }
    var record := records[0];
    records := records[1..];
    var id := record.id;
    if IsModified(record, p) {
      // The record was fetched under `p.domain`, so the merge's domain check passes.
      var body := Modify(record, p);
      assert body.Ok?;
      var edited := Edit(server, body.value, write);
      if edited.Err? {
        return Err(edited.error);
      }
      return Ok((id, true));
    }
    return Ok((id, false));
  }

  // ---------------------------------------------------------------------
  // Properties of the protocol.

  /** A failed read issues no write and leaves the provider as it was. */
  lemma FailedReadWritesNothing(s: State, numericIds: bool, p: Params, read: Fault, write: Fault)
    requires !read.Healthy?
    ensures var e := CreateOrEditSpec(s, numericIds, p, read, write);
      e.result.Err? && e.after == s && e.calls == [RetrieveCall(p.domain, p.name, p.recordType)]
  {
  }

  /** Nothing found: exactly one create and no edit; a healthy create returns the new record's id. */
  lemma EmptyFetchCreatesOnce(s: State, numericIds: bool, p: Params, write: Fault)
    requires Fetched(s, p) == []
    ensures var e := CreateOrEditSpec(s, numericIds, p, Healthy, write);
      && e.calls == [RetrieveCall(p.domain, p.name, p.recordType), CreateCall(p)]
      && (e.result.Ok? ==> e.result.value.1)
      && (write.Healthy? && (numericIds ==> s.nextId < U64Bound) ==>
            && e.result == Ok((Decimal(s.nextId), true))
            && e.after == State(s.store + [Hosted(p.domain, NewRecord(p, Decimal(s.nextId)))], s.nextId + 1))
      && (!write.Healthy? ==> e.result.Err? && e.after == s)
  {
    if write.Healthy? && numericIds && s.nextId < U64Bound {
      DecimalRoundTrip(s.nextId);
    }
  }

  /**
   * Something found: no create; the first record's id is returned; an edit
   * is issued exactly when that record is modified, and a successful result
   * flags exactly that.
   */
  lemma NonEmptyFetchNeverCreates(s: State, numericIds: bool, p: Params, write: Fault)
    requires Fetched(s, p) != []
    ensures var e := CreateOrEditSpec(s, numericIds, p, Healthy, write);
      var first := Localize(Fetched(s, p)[0], p.domain);
      && (forall i :: 0 <= i < |e.calls| ==> !e.calls[i].CreateCall?)
      && e.calls[0] == RetrieveCall(p.domain, p.name, p.recordType)
      && (|e.calls| == 2 <==> IsModified(first, p))
      && (IsModified(first, p) ==> e.calls[1] == EditCall(p.domain, Modify(first, p).value))
      && (e.result.Ok? ==> e.result.value == (first.id, IsModified(first, p)))
      && (!IsModified(first, p) ==> e.result == Ok((first.id, false)) && e.after == s)
      && (IsModified(first, p) && write.Healthy? ==> e.result == Ok((first.id, true)))
  {
  }

  /** The domain checks of merging and editing never fire inside the protocol. */
  lemma DomainChecksNeverFail(s: State, numericIds: bool, p: Params, read: Fault, write: Fault)
    ensures var e := CreateOrEditSpec(s, numericIds, p, read, write);
      e.result.Err? ==> !e.result.error.NoDomainOnRecord? && !e.result.error.DomainMismatch? &&
                        !e.result.error.RecordHasNoDomain?
  {
    var reply := RetrieveStep(s, p.domain, p.name, p.recordType, read);
    var fetched := RetrievedRecords(reply, p.domain);
    if fetched.Ok? && fetched.value != [] {
      assert fetched.value[0].domain == Some(p.domain);
    }
  }

  /** Creating and then asking again with the same parameters finds the record up to date. */
  lemma UpToDateAfterCreate(s: State, numericIds: bool, p: Params, write: Fault)
    requires Fetched(s, p) == [] && p.name != ""
    requires numericIds ==> s.nextId < U64Bound
    ensures var e := CreateOrEditSpec(s, numericIds, p, Healthy, Healthy);
      var again := CreateOrEditSpec(e.after, numericIds, p, Healthy, write);
      && e.result == Ok((Decimal(s.nextId), true))
      && again.result == Ok((Decimal(s.nextId), false))
      && again.after == e.after
      && again.calls == [RetrieveCall(p.domain, p.name, p.recordType)]
  {
    EmptyFetchCreatesOnce(s, numericIds, p, Healthy);
    var e := CreateOrEditSpec(s, numericIds, p, Healthy, Healthy);
    var fqdn := Qualify(p.name, p.domain);
    var created := NewRecord(p, Decimal(s.nextId));
    MatchingAppend(s.store, Hosted(p.domain, created), p.domain, fqdn, p.recordType);
    assert Fetched(e.after, p) == [created];
    LocalizeHost(created, p.name, p.domain);
  }

  /**
   * Editing and then asking again with the same parameters: the second run
   * reports the record unchanged exactly when every field `p` leaves unset
   * already held its default; otherwise it edits again.
   */
  lemma SecondRunAfterEdit(s: State, numericIds: bool, p: Params)
    requires Fetched(s, p) != [] && p.name != ""
    requires IsModified(Localize(Fetched(s, p)[0], p.domain), p)
    ensures var first := Localize(Fetched(s, p)[0], p.domain);
      var e := CreateOrEditSpec(s, numericIds, p, Healthy, Healthy);
      var again := CreateOrEditSpec(e.after, numericIds, p, Healthy, Healthy);
      var settles := (p.ttl.Some? || first.ttl == DefaultTtl) && (p.prio.Some? || first.prio == DefaultPrio);
      && e.result == Ok((first.id, true))
      && again.result == Ok((first.id, !settles))
      && (settles ==> again.after == e.after && |again.calls| == 1)
  {
    var first := Localize(Fetched(s, p)[0], p.domain);
    var body := Modify(first, p).value;
    var e := CreateOrEditSpec(s, numericIds, p, Healthy, Healthy);
    var fqdn := Qualify(p.name, p.domain);
    assert e.after.store == Rewrite(s.store, p.domain, body);
    RewriteKeepsFirst(s.store, p.domain, fqdn, body);
    var hosted := EditedRecord(body, p.domain);
    assert Fetched(e.after, p)[0] == hosted;
    LocalizeHost(hosted, p.name, p.domain);
    var first' := Localize(hosted, p.domain);
    assert first' == body;
    ModifySettlesIff(first, p);
  }

  /**
   * A record for the apex name (`""`, what an interface without a subdomain
   * publishes) is fetched under the domain's own name, which is not
   * stripped, so a non-empty domain's apex record is never reported up to date.
   */
  lemma ApexNeverUpToDate(s: State, numericIds: bool, p: Params, write: Fault)
    requires p.name == "" && p.domain != ""
    ensures var e := CreateOrEditSpec(s, numericIds, p, Healthy, write);
      e.result.Ok? ==> e.result.value.1
  {
    var found := Fetched(s, p);
    if found != [] {
      FirstMatchHasName(s.store, p.domain, p.domain, p.recordType);
      LocalizeKeepsDomainName(found[0], p.domain);
    }
  }
}
