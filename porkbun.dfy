/**
 * The provider's records as the agent sees them (src/porkbun.rs): record
 * types, fetched records, desired parameters, change detection, the merge of
 * parameters into a fetched record, the naming of fetched records, and how a
 * provider reply is judged.
 */
module Porkbun {
  import opened Wrappers
  import opened Numerals

  datatype RecordType = A | MX | CNAME | ALIAS | TXT | NS | AAAA | SRV | TLSA | CAA

  /**
   * A record as the provider reports it. `domain` is not part of the wire
   * form: the agent attaches it after fetching.
   */
  datatype Record = Record(
    content: string,
    id: string,
    name: string,
    prio: string,
    ttl: string,
    recordType: RecordType,
    domain: Option<string>)

  /** The record the agent wants: unset ttl and prio leave them to the provider. */
  datatype Params = Params(
    domain: string,
    recordType: RecordType,
    name: string,
    content: string,
    ttl: Option<string>,
    prio: Option<string>)

  const DefaultTtl: string := "600"
  const DefaultPrio: string := "0"

  /** The ways an operation of the provider client can fail. */
  datatype Error =
    | NoDomainOnRecord                                    // merging into a record with no domain
    | DomainMismatch(recordDomain: string, paramsDomain: string)
    | RecordHasNoDomain                                   // editing a record with no domain
    | Transport                                           // the request or its reply was lost
    | Unparsable                                          // the reply body is not JSON
    | Rejected(message: string)                           // status other than "SUCCESS"
    | BadRecords                                          // no well-formed `records` list
    | NoId                                                // a create reply without a usable id

  // ---------------------------------------------------------------------
  // Change detection and merging.

  /** The record `p` describes once its unset ttl and prio take their defaults. */
  function Described(p: Params, id: string, domain: Option<string>): Record {
    Record(p.content, id, p.name, p.prio.GetOr(DefaultPrio), p.ttl.GetOr(DefaultTtl), p.recordType, domain)
  }

  /**
   * `is_modified`: the record differs from the parameters, with ttl and prio
   * defaulted. It is unmodified exactly when it is, apart from id and domain,
   * the record `p` describes.
   */
  function IsModified(r: Record, p: Params): (m: bool)
    ensures !m <==> r == Described(p, r.id, r.domain)
  {
    || r.name != p.name
    || r.recordType != p.recordType
    || r.content != p.content
    || r.ttl != p.ttl.GetOr(DefaultTtl)
    || r.prio != p.prio.GetOr(DefaultPrio)
  }

  /** From an unmodified record, changing any one compared field makes it modified. */
  lemma EachComparedFieldCounts(r: Record, p: Params)
    requires !IsModified(r, p)
    ensures forall v :: v != r.name ==> IsModified(r.(name := v), p)
    ensures forall t :: t != r.recordType ==> IsModified(r.(recordType := t), p)
    ensures forall v :: v != r.content ==> IsModified(r.(content := v), p)
    ensures forall v :: v != r.ttl ==> IsModified(r.(ttl := v), p)
    ensures forall v :: v != r.prio ==> IsModified(r.(prio := v), p)
    ensures forall v, d :: !IsModified(r.(id := v, domain := d), p)
  {
  }

  /**
   * `modify`: merges `p` into a fetched record. It fails unless the record
   * carries the domain of `p`; otherwise name, type and content come from
   * `p`, ttl and prio from `p` where set and from the record where not, and
   * id and domain stay.
   */
  function Modify(r: Record, p: Params): (res: Result<Record, Error>)
    ensures r.domain.None? ==> res == Err(NoDomainOnRecord)
    ensures r.domain.Some? && r.domain.value != p.domain ==> res == Err(DomainMismatch(r.domain.value, p.domain))
    ensures res.Ok? <==> r.domain == Some(p.domain)
    ensures res.Ok? ==>
      && res.value.name == p.name
      && res.value.recordType == p.recordType
      && res.value.content == p.content
      && res.value.ttl == (if p.ttl.Some? then p.ttl.value else r.ttl)
      && res.value.prio == (if p.prio.Some? then p.prio.value else r.prio)
      && res.value.id == r.id
      && res.value.domain == r.domain
  {
    if r.domain.None? then Err(NoDomainOnRecord)
    else if r.domain != Some(p.domain) then Err(DomainMismatch(r.domain.value, p.domain))
    else Ok(r.(name := p.name, recordType := p.recordType, content := p.content,
               ttl := p.ttl.GetOr(r.ttl), prio := p.prio.GetOr(r.prio)))
  }

  /**
   * The merged record settles the comparison exactly when every field that
   * `p` leaves unset already holds its default.
   */
  lemma ModifySettlesIff(r: Record, p: Params)
    requires r.domain == Some(p.domain)
    ensures !IsModified(Modify(r, p).value, p) <==>
      (p.ttl.Some? || r.ttl == DefaultTtl) && (p.prio.Some? || r.prio == DefaultPrio)
  {
  }

  /** With ttl and prio both set, merging always settles the comparison. */
  lemma ModifySettlesWhenFullySet(r: Record, p: Params)
    requires r.domain == Some(p.domain) && p.ttl.Some? && p.prio.Some?
    ensures Modify(r, p).Ok? && !IsModified(Modify(r, p).value, p)
  {
    ModifySettlesIff(r, p);
  }

  /** Merging the same parameters twice changes nothing more. */
  lemma ModifyIdempotent(r: Record, p: Params)
    requires Modify(r, p).Ok?
    ensures Modify(Modify(r, p).value, p) == Modify(r, p)
  {
  }

  // ---------------------------------------------------------------------
  // Naming of fetched records.

  predicate EndsWith(s: string, suffix: string) {
    |suffix| <= |s| && s[|s| - |suffix|..] == suffix
  }

  /** Rust's `str::strip_suffix`. */
  function StripSuffix(s: string, suffix: string): (r: Option<string>)
    ensures r.Some? <==> EndsWith(s, suffix)
    ensures r.Some? ==> r.value + suffix == s
  {
    if EndsWith(s, suffix) then Some(s[..|s| - |suffix|]) else None
  }

  /**
   * The record as `retrieve_by_name_type` returns it: tagged with the
   * domain, and with `"." + domain` removed from the end of its name when
   * the name ends so; nothing else changes.
   */
  function Localize(r: Record, domain: string): (l: Record)
    ensures l.domain == Some(domain)
    ensures l == r.(name := l.name, domain := Some(domain))
    ensures EndsWith(r.name, "." + domain) ==> l.name + "." + domain == r.name
    ensures !EndsWith(r.name, "." + domain) ==> l.name == r.name
  {
    r.(domain := Some(domain), name := StripSuffix(r.name, "." + domain).GetOr(r.name))
  }

  /** A host name under the domain loses exactly the domain suffix. */
  lemma LocalizeHost(r: Record, host: string, domain: string)
    requires r.name == host + "." + domain
    ensures Localize(r, domain).name == host
  {
    assert r.name[|r.name| - |"." + domain|..] == "." + domain;
    var l := Localize(r, domain);
    assert l.name == r.name[..|host|];
  }

  /** A name equal to the domain itself does not end with `"." + domain` and is kept. */
  lemma LocalizeKeepsDomainName(r: Record, domain: string)
    requires r.name == domain
    ensures Localize(r, domain).name == domain
  {
  }

  lemma LocalizeExample()
    ensures Localize(Record("203.0.113.5", "7", "host.example.com", "0", "600", A, None), "example.com").name == "host"
    ensures Localize(Record("203.0.113.5", "7", "example.com", "0", "600", A, None), "example.com").name == "example.com"
  {
    var host := Record("203.0.113.5", "7", "host.example.com", "0", "600", A, None);
    assert host.name == "host" + "." + "example.com";
    LocalizeHost(host, "host", "example.com");
    LocalizeKeepsDomainName(host.(name := "example.com"), "example.com");
  }

  /** The `map`/`collect` over fetched records. */
  function LocalizeAll(records: seq<Record>, domain: string): (rs: seq<Record>)
    ensures |rs| == |records|
    ensures forall i :: 0 <= i < |rs| ==> rs[i] == Localize(records[i], domain)
  {
    seq(|records|, i requires 0 <= i < |records| => Localize(records[i], domain))
  }

  // ---------------------------------------------------------------------
  // Provider replies.

  /** The `id` field of a reply: a JSON string, a JSON integer, or anything else (absent included). */
  datatype IdField = TextId(text: string) | NumberId(number: int) | OtherId

  /**
   * The parts of a reply body the agent reads. `status` and `message` are
   * None when absent or not strings; `records` is None when absent or not a
   * list of records.
   */
  datatype Response = Response(
    status: Option<string>,
    message: Option<string>,
    id: IdField,
    records: Option<seq<Record>>)

  /** What comes back from one request. */
  datatype Reply = Unreachable | Garbled | Body(response: Response)

  const SuccessStatus: string := "SUCCESS"
  const U64Bound: int := 0x1_0000_0000_0000_0000

  /** `validate_response`: only a parsed body whose status is exactly "SUCCESS" is accepted. */
  function ValidateResponse(reply: Reply): (r: Result<Response, Error>)
    ensures r.Ok? <==> reply.Body? && reply.response.status == Some(SuccessStatus)
    ensures r.Ok? ==> r.value == reply.response
    ensures reply.Unreachable? ==> r == Err(Transport)
    ensures reply.Garbled? ==> r == Err(Unparsable)
    ensures reply.Body? && reply.response.status != Some(SuccessStatus) ==>
      r == Err(Rejected(if reply.response.message.Some? then reply.response.message.value else ""))
  {
    match reply
    case Unreachable => Err(Transport)
    case Garbled => Err(Unparsable)
    case Body(v) =>
      if v.status == Some(SuccessStatus) then Ok(v) else Err(Rejected(v.message.GetOr("")))
  }

  /**
   * The id of a created record: a string as it is, an integer that fits an
   * unsigned 64-bit value as its decimal text, anything else an error.
   */
  function CreatedId(v: Response): (r: Result<string, Error>)
    ensures r.Ok? <==> v.id.TextId? || (v.id.NumberId? && 0 <= v.id.number < U64Bound)
    ensures v.id.TextId? ==> r == Ok(v.id.text)
    ensures r.Ok? && v.id.NumberId? ==> AllDecimal(r.value) && DecimalValue(r.value) == v.id.number
    ensures r.Ok? && v.id.NumberId? ==> r.value == Decimal(v.id.number)
    ensures r.Err? ==> r.error == NoId
  {
    match v.id
    case TextId(s) => Ok(s)
    case NumberId(n) =>
      if 0 <= n < U64Bound then DecimalRoundTrip(n); Ok(Decimal(n)) else Err(NoId)
    case OtherId => Err(NoId)
  }

  /** The client side of `retrieve_by_name_type`: judge the reply, read its records, localize them. */
  function RetrievedRecords(reply: Reply, domain: string): (r: Result<seq<Record>, Error>)
    ensures ValidateResponse(reply).Err? ==> r == Err(ValidateResponse(reply).error)
    ensures ValidateResponse(reply).Ok? && reply.response.records.None? ==> r == Err(BadRecords)
    ensures ValidateResponse(reply).Ok? && reply.response.records.Some? ==>
      r == Ok(LocalizeAll(reply.response.records.value, domain))
    ensures r.Ok? ==> reply.Body? && reply.response.records.Some?
    ensures r.Ok? ==> r.value == LocalizeAll(reply.response.records.value, domain)
    ensures r.Ok? ==> forall i :: 0 <= i < |r.value| ==> r.value[i].domain == Some(domain)
  {
    var v :- ValidateResponse(reply);
    match v.records
    case None => Err(BadRecords)
    case Some(records) => Ok(LocalizeAll(records, domain))
  }

  /** The client side of `create`: judge the reply, then read the id. */
  function CreateOutcome(reply: Reply): (r: Result<string, Error>)
    ensures ValidateResponse(reply).Err? ==> r == Err(ValidateResponse(reply).error)
    ensures ValidateResponse(reply).Ok? ==> r == CreatedId(reply.response)
  {
    var v :- ValidateResponse(reply);
    CreatedId(v)
  }

  /** The client side of `edit`: only the reply's status matters. */
  function EditOutcome(reply: Reply): (r: Result<(), Error>)
    ensures r.Ok? <==> ValidateResponse(reply).Ok?
    ensures r.Err? ==> r.error == ValidateResponse(reply).error
  {
    var _ :- ValidateResponse(reply);
    Ok(())
  }
}
