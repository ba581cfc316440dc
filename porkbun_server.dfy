/**
 * An abstract model of the DNS provider on the far side of the wire: the
 * records it hosts, the ids it hands out, and the calls it has received.
 * This is the environment of the provider client, not code of the agent; it
 * fixes the provider behaviour the client's protocol is proved against.
 * Each call carries a `Fault` saying how the network or the provider treats
 * it; a call that fails leaves the hosted records as they were.
 */
module PorkbunServer {
  import opened Wrappers
  import opened Numerals
  import opened Porkbun

  datatype Fault =
    | Healthy                          // delivered and answered with status "SUCCESS"
    | Lost                             // the request never got an answer
    | Garbling                         // the answer is not JSON
    | Refusing(message: Option<string>)   // answered with status "ERROR"

  /** A hosted record; its `name` is fully qualified and its `domain` field unused. */
  datatype Hosted = Hosted(domain: string, record: Record)

  /** The calls the client issues, with what they carry. */
  datatype Call =
    | RetrieveCall(domain: string, name: string, recordType: RecordType)
    | CreateCall(params: Params)
    | EditCall(domain: string, body: Record)

  /** The hosted records and the next id to hand out. */
  datatype State = State(store: seq<Hosted>, nextId: nat)

  /** The fully-qualified name the provider reports for a relative name. */
  function Qualify(name: string, domain: string): string {
    if name == "" then domain else name + "." + domain
  }

  predicate Holds(h: Hosted, domain: string, fqdn: string, recordType: RecordType) {
    h.domain == domain && h.record.name == fqdn && h.record.recordType == recordType
  }

  /** The hosted records with this domain, name and type, in store order. */
  function Matching(store: seq<Hosted>, domain: string, fqdn: string, recordType: RecordType): seq<Record> {
    if store == [] then []
    else
      (if Holds(store[0], domain, fqdn, recordType) then [store[0].record] else [])
      + Matching(store[1..], domain, fqdn, recordType)
  }

  function FaultReply(f: Fault): Reply
    requires !f.Healthy?
  {
    match f
    case Lost => Unreachable
    case Garbling => Garbled
    case Refusing(m) => Body(Response(Some("ERROR"), m, OtherId, None))
  }

  function RetrieveStep(s: State, domain: string, name: string, recordType: RecordType, fault: Fault): Reply {
    if fault.Healthy? then
      Body(Response(Some(SuccessStatus), None, OtherId, Some(Matching(s.store, domain, Qualify(name, domain), recordType))))
    else FaultReply(fault)
  }

  /** The record the provider hosts after creating `p` under `id`. */
  function NewRecord(p: Params, id: string): Record {
    Record(p.content, id, Qualify(p.name, p.domain), p.prio.GetOr(DefaultPrio), p.ttl.GetOr(DefaultTtl), p.recordType, None)
  }

  /**
   * A create hosts one new record under the next id and answers that id,
   * as a JSON integer or as a string depending on the provider.
   */
  function CreateStep(s: State, numericIds: bool, p: Params, fault: Fault): (Reply, State) {
    if fault.Healthy? then
      var id := if numericIds then NumberId(s.nextId) else TextId(Decimal(s.nextId));
      (Body(Response(Some(SuccessStatus), None, id, None)),
       State(s.store + [Hosted(p.domain, NewRecord(p, Decimal(s.nextId)))], s.nextId + 1))
    else (FaultReply(fault), s)
  }

  /** The hosted form of an edit body: its fields under its id, with the name qualified. */
  function EditedRecord(body: Record, domain: string): Record {
    Record(body.content, body.id, Qualify(body.name, domain), body.prio, body.ttl, body.recordType, None)
  }

  function Rewritten(h: Hosted, domain: string, body: Record): Hosted {
    if h.domain == domain && h.record.id == body.id then
      Hosted(domain, EditedRecord(body, domain))
    else h
  }

  /** Every record of the domain with the body's id takes the body's fields. */
  function Rewrite(store: seq<Hosted>, domain: string, body: Record): (r: seq<Hosted>)
    ensures |r| == |store|
    ensures forall i :: 0 <= i < |r| ==> r[i] == Rewritten(store[i], domain, body)
  {
    seq(|store|, i requires 0 <= i < |store| => Rewritten(store[i], domain, body))
  }

  function EditStep(s: State, domain: string, body: Record, fault: Fault): (Reply, State) {
    if fault.Healthy? then
      (Body(Response(Some(SuccessStatus), None, OtherId, None)), State(Rewrite(s.store, domain, body), s.nextId))
    else (FaultReply(fault), s)
  }

  /** The provider as a stateful party: its hosted records, next id and received calls. */
  class Provider {
    var store: seq<Hosted>
    var nextId: nat
    var log: seq<Call>
    const numericIds: bool

    function Now(): State
      reads this
    {
      State(store, nextId)
    }

    constructor (numericIds: bool)
      ensures store == [] && nextId == 1 && log == []
      ensures this.numericIds == numericIds
    {
      this.numericIds := numericIds;
      store, nextId, log := [], 1, [];
    }

    method RetrieveByNameType(domain: string, name: string, recordType: RecordType, fault: Fault) returns (reply: Reply)
      modifies this`log
      ensures log == old(log) + [RetrieveCall(domain, name, recordType)]
      ensures reply == RetrieveStep(Now(), domain, name, recordType, fault)
    {
      log := log + [RetrieveCall(domain, name, recordType)];
      reply := RetrieveStep(Now(), domain, name, recordType, fault);
    }

    method Create(p: Params, fault: Fault) returns (reply: Reply)
      modifies this`store, this`nextId, this`log
      ensures log == old(log) + [CreateCall(p)]
      ensures (reply, Now()) == CreateStep(old(Now()), numericIds, p, fault)
    {
      log := log + [CreateCall(p)];
      var (r, s) := CreateStep(Now(), numericIds, p, fault);
      reply, store, nextId := r, s.store, s.nextId;
    }

    method Edit(domain: string, body: Record, fault: Fault) returns (reply: Reply)
      modifies this`store, this`log
      ensures log == old(log) + [EditCall(domain, body)]
      ensures (reply, Now()) == EditStep(old(Now()), domain, body, fault)
    {
      log := log + [EditCall(domain, body)];
      var (r, s) := EditStep(Now(), domain, body, fault);
      reply, store := r, s.store;
    }
  }

  /** Matching distributes over a store extended at its end. */
  lemma {:induction false} MatchingAppend(store: seq<Hosted>, h: Hosted, domain: string, fqdn: string, t: RecordType)
    ensures Matching(store + [h], domain, fqdn, t) ==
      Matching(store, domain, fqdn, t) + (if Holds(h, domain, fqdn, t) then [h.record] else [])
    decreases |store|
  {
    if store == [] {
      assert [h][1..] == [];
    } else {
      assert (store + [h])[0] == store[0];
      assert (store + [h])[1..] == store[1..] + [h];
      MatchingAppend(store[1..], h, domain, fqdn, t);
    }
  }

  /**
   * After rewriting the id of the first matching record with a body that
   * keeps its name and type, the first matching record is the rewritten one.
   */
  lemma {:induction false} RewriteKeepsFirst(store: seq<Hosted>, domain: string, fqdn: string, body: Record)
    requires Matching(store, domain, fqdn, body.recordType) != []
    requires Matching(store, domain, fqdn, body.recordType)[0].id == body.id
    requires Qualify(body.name, domain) == fqdn
    ensures var after := Matching(Rewrite(store, domain, body), domain, fqdn, body.recordType);
      after != [] &&
      after[0] == EditedRecord(body, domain)
    decreases |store|
  {
    var t := body.recordType;
    var rw := Rewrite(store, domain, body);
    assert rw[1..] == Rewrite(store[1..], domain, body);
    if !Holds(store[0], domain, fqdn, t) && !(store[0].domain == domain && store[0].record.id == body.id) {
      RewriteKeepsFirst(store[1..], domain, fqdn, body);
    }
  }

  /** The first record a lookup by name finds carries that name. */
  lemma {:induction false} FirstMatchHasName(store: seq<Hosted>, domain: string, fqdn: string, t: RecordType)
    requires Matching(store, domain, fqdn, t) != []
    ensures Matching(store, domain, fqdn, t)[0].name == fqdn
    decreases |store|
  {
    if !Holds(store[0], domain, fqdn, t) {
      FirstMatchHasName(store[1..], domain, fqdn, t);
    }
  }
}
