/**
 * Two concrete runs of the agent against a provider for "example.com": a
 * first pass that creates the record for "home" and a quiet second pass,
 * then an address change that edits the record in place.
 */
module Scenarios {
  import opened Wrappers
  import opened Numerals
  import opened Net
  import opened Porkbun
  import opened PorkbunServer
  import opened PorkbunClient
  import opened Agent

  const Domain: string := "example.com"
  const Fqdn: string := "home.example.com"
  const Old: IpAddr := V4([203, 0, 113, 5])
  const New: IpAddr := V4([203, 0, 113, 9])
  const OldText: string := "203.0.113.5"
  const NewText: string := "203.0.113.9"

  /** The agent's parameters for "home" at each address. */
  const OldParams: Params := Params(Domain, A, "home", OldText, Some("600"), None)
  const NewParams: Params := Params(Domain, A, "home", NewText, Some("600"), None)

  /** The record the provider hosts after the first pass. */
  const Hosted1: Hosted := Hosted(Domain, Record(OldText, "1", Fqdn, "0", "600", A, None))

  lemma SmallDecimals()
    ensures Decimal(0) == "0" && Decimal(1) == "1" && Decimal(5) == "5" && Decimal(9) == "9"
  {
  }

  lemma Decimal203()
    ensures Decimal(203) == "203"
  {
    assert Decimal(20) == "2" + "0";
  }

  lemma Decimal113()
    ensures Decimal(113) == "113"
  {
    assert Decimal(11) == "1" + "1";
  }

  lemma AddressTexts()
    ensures IpText(Old) == OldText && IpText(New) == NewText
  {
    SmallDecimals();
    Decimal203();
    Decimal113();
  }

  lemma HomeName()
    ensures Qualify("home", Domain) == Fqdn && Fqdn == "home" + "." + Domain
  {
  }

  /** The agent's parameters for "home": an A record with the address text and ttl 600. */
  lemma HomeParams()
    ensures UpdateParams(Domain, "home", Old) == OldParams
    ensures UpdateParams(Domain, "home", New) == NewParams
  {
    AddressTexts();
  }

  /** First pass with an empty cache: one dispatch and the address cached; a second pass is quiet. */
  lemma FirstPassDispatches()
    ensures var desired := [("home", [Old])];
      && CachedDispatches(map[], desired) == [Dispatch("home", Old)]
      && CacheAfter(map[], desired) == map["home" := [Old]]
      && CachedDispatches(map["home" := [Old]], desired) == []
  {
    var desired := [("home", [Old])];
    PassStep(map[], desired, 0);
    assert desired[..0] == [] && desired[..1] == desired;
    RepeatPassIsQuiet(map[], desired);
  }

  /** The dispatched update finds nothing and creates the A record, under id 1. */
  lemma FirstPassCreates(numericIds: bool)
    ensures var e := CreateOrEditSpec(State([], 1), numericIds, OldParams, Healthy, Healthy);
      && e.calls == [RetrieveCall(Domain, "home", A), CreateCall(OldParams)]
      && e.result == Ok(("1", true))
      && e.after == State([Hosted1], 2)
  {
    assert Fetched(State([], 1), OldParams) == [];
    EmptyFetchCreatesOnce(State([], 1), numericIds, OldParams, Healthy);
    SmallDecimals();
    HomeName();
    assert NewRecord(OldParams, "1") == Hosted1.record;
  }

  /** The address changes: the pass dispatches the new address. */
  lemma AddressChangeDispatches()
    ensures CachedDispatches(map["home" := [Old]], [("home", [New])]) == [Dispatch("home", New)]
  {
    var desired := [("home", [New])];
    PassStep(map["home" := [Old]], desired, 0);
    assert desired[..0] == [] && desired[..1] == desired;
    assert [Old] != [New] by { assert [Old][0] != [New][0]; }
  }

  /** The hosted record as the client sees it, and the edit body made from it. */
  const Found: Record := Record(OldText, "1", "home", "0", "600", A, Some(Domain))
  const Edited: Record := Record(NewText, "1", "home", "0", "600", A, Some(Domain))

  /** The lookup for the new address finds the hosted record, named relative to the domain. */
  lemma AddressChangeFinds()
    ensures RetrievedRecords(RetrieveStep(State([Hosted1], 2), Domain, "home", A, Healthy), Domain) == Ok([Found])
  {
    HomeName();
    assert Matching([Hosted1], Domain, Fqdn, A) == [Hosted1.record];
    LocalizeHost(Hosted1.record, "home", Domain);
    assert Localize(Hosted1.record, Domain) == Found;
    var all := LocalizeAll([Hosted1.record], Domain);
    assert |all| == 1 && all[0] == Found;
    assert all == [Found];
  }

  /** The found record has the old content, so it is edited and the run reports a change. */
  lemma AddressChangeEdits(numericIds: bool)
    ensures var e := CreateOrEditSpec(State([Hosted1], 2), numericIds, NewParams, Healthy, Healthy);
      && e.result == Ok(("1", true))
      && e.calls == [RetrieveCall(Domain, "home", A), EditCall(Domain, Edited)]
      && e.after == State([Hosted(Domain, Record(NewText, "1", Fqdn, "0", "600", A, None))], 2)
  {
    AddressChangeFinds();
    assert OldText != NewText by { assert OldText[10] != NewText[10]; }
    assert IsModified(Found, NewParams);
    assert Modify(Found, NewParams) == Ok(Edited);
    HomeName();
    assert Rewrite([Hosted1], Domain, Edited) == [Hosted(Domain, EditedRecord(Edited, Domain))];
  }
}
