# pbddns in Dafny

pbddns is a dynamic-DNS agent for domains hosted at Porkbun. It is configured
with a domain and a list of `interface[=subdomain]` arguments. Each pass, for
every argument, it reads the interface's public addresses and compares the
list with a cache of the last list it acted on. For every name whose list
changed, it updates the cache first and then starts one update per address.
An update builds record parameters from the address (an `A` record for IPv4,
`AAAA` for IPv6, ttl `600`, no priority) and runs the provider's
create-or-edit protocol:

1. Look up the records with that name and type.
2. If there are none, create one.
3. Otherwise take the first record. If it differs from the parameters in name,
   type, content, ttl (default `600`) or priority (default `0`), merge the
   parameters into it and edit it. If it does not differ, report it up to date.

The model has the following modules:

- `Wrappers`: `Option` and `Result`.
- `Numerals`: decimal and hexadecimal text of naturals, and the decimal round trip.
- `Net`: IP addresses as octet sequences. It provides prefix (CIDR) membership
  on the big-endian value, and the text form Rust's `Display` gives addresses.
  It proves that IPv4 text is injective.
- `Config` (`src/config.rs`): parsing of `interface[=subdomain]`, the public-address
  filter with its excluded ranges proved, and `Config::domains`. The interface
  lookup is a function parameter.
- `Porkbun` (`src/porkbun.rs`): records, parameters, the change test and the merge,
  the renaming of fetched records relative to the domain, and the checks on the
  provider's replies.
- `PorkbunServer`: an abstract provider. It is a `Provider` class whose
  methods change its hosted records, next id and call log. Each method is tied
  to a pure step function. How a call fares (healthy, unreachable, garbled
  reply, refused with a message) is a parameter of the call.
- `PorkbunClient` (`src/porkbun.rs`): `retrieve_by_name_type`, `create`, `edit` and
  `create_or_edit` as methods against a provider. Each is proved against a
  specification function of the provider state and the faults. Lemmas state
  the create-versus-edit branch and what a second run reports.
- `Agent` (`src/main.rs`): the cache as a class. `update_once` is a loop
  proved against recursive specification functions. `update_dns` and the
  joining of the spawned updates are modelled, with lemmas about repeated
  passes.
- `Scenarios`: the first-pass, second-pass and address-change runs for
  `home.example.com`.

Three behaviours of the code are easy to misread; the model follows the code:

- A reply is accepted when its `status` is exactly `"SUCCESS"`.
- The cached list and the new list are compared position by position, as
  vectors, not as sets.
- A record whose name is exactly the domain keeps that name, since the
  suffix stripped is `"." + domain`. A record for the apex name `""` is
  therefore always found "modified" (`PorkbunClient.ApexNeverUpToDate`).

## Model

| member | source | states |
|---|---|---|
| Numerals.Decimal | src/porkbun.rs:176-177 | the decimal text of a number is non-empty, is all digits, and has no leading zero except for 0 itself |
| Numerals.DecimalRoundTrip | src/porkbun.rs:176-177 | reading back the decimal text of n gives n |
| Numerals.DecimalInjective | src/porkbun.rs:176-177 | different numbers have different decimal texts |
| Net.Ipv4Text | src/main.rs:96 | the dotted-decimal text of an IPv4 address holds only digits and dots, and no colon |
| Net.Ipv6Text | src/main.rs:96 | the text of an IPv6 address always holds a colon |
| Net.IpText | src/main.rs:96 | the text holds a colon iff the address is IPv6, so an IPv4 and an IPv6 address never share a text |
| Net.Ipv4TextInjective | src/main.rs:96 | two IPv4 addresses with the same dotted-decimal text are equal |
| Net.PrefixOfLeadingBytes | src/config.rs:93 | membership in a prefix of len bits depends only on the leading bytes that cover it |
| Config.FirstIndexOf | src/config.rs:65 | the position found holds the first occurrence of the character; there is none iff the character does not occur |
| Config.SplitOnce | src/config.rs:65 | no split iff the separator does not occur; otherwise the text is the left part, the separator and the right part, with no separator in the left part |
| Config.FromStr | src/config.rs:64-79 | parsing never fails; without '=' the whole text is the interface with no subdomain; otherwise the text is interface + "=" + subdomain, with the interface holding no '=' |
| Config.FromStrSpelling | src/config.rs:61-80 | every configuration whose interface has no '=' parses back from its spelling |
| Config.IsPrivate | src/config.rs:96 | an IPv4 address is private iff it lies in 10.0.0.0/8, 172.16.0.0/12 or 192.168.0.0/16 |
| Config.IsLinkLocal | src/config.rs:96 | an IPv4 address is link-local iff it lies in 169.254.0.0/16 |
| Config.IsLoopback | src/config.rs:96 | an IPv4 address is loopback iff it lies in 127.0.0.0/8 |
| Config.IsPublicIp | src/config.rs:95-100 | an IPv4 address passes iff it lies outside 10/8, 172.16/12, 192.168/16, 169.254/16 and 127/8; an IPv6 address passes iff its first byte is in [0x20, 0x40), that is, iff it is in 2000::/3 |
| Config.FilterByBytes | src/config.rs:96 | the IPv4 filter, read on the first two bytes of the address |
| Config.IsPublic | src/config.rs:90-102 | an address is kept exactly when it is present and public, and it is kept unchanged |
| Config.OtherSpecialRangesArePublic | src/config.rs:96 | shared, documentation and unspecified IPv4 addresses, and the address just past 172.16/12, pass the filter; the last address of 172.16/12 does not |
| Config.PublicIps | src/config.rs:82-88 | the filtered list is no longer than the input and holds only public addresses |
| Config.PublicIpsMembership | src/config.rs:82-88 | an address is in the filtered list iff it is public and some entry carries it |
| Config.PublicIpsAppend | src/config.rs:82-88 | filtering distributes over concatenation, so input order is kept |
| Config.AddressesOf | src/config.rs:46-50 | an interface that is not found has no addresses; a found one gives no more addresses than it has entries, all of them public |
| Config.Domains | src/config.rs:43-53 | one pair per argument in order; the name is the subdomain or ""; the addresses are the interface's public ones, or none when the interface is not found |
| Config.BareInterfaceIsApex | src/config.rs:45 | an argument without '=' publishes at the apex name "" |
| Porkbun.IsModified | src/porkbun.rs:52-57 | a record is unmodified iff it equals the record the parameters describe (ttl "600" and prio "0" when unset), whatever its id and domain |
| Porkbun.EachComparedFieldCounts | src/porkbun.rs:52-57 | starting from an unmodified record, changing any one of name, type, content, ttl or prio makes it modified; changing id or domain does not |
| Porkbun.Modify | src/porkbun.rs:62-83 | no domain gives "no domain on record"; another domain gives a mismatch naming both; otherwise the record takes name, type and content, and takes ttl and prio when set, keeping id and domain |
| Porkbun.ModifySettlesIff | src/porkbun.rs:74-81 | the merged record is unmodified iff every unset ttl or prio already held its default |
| Porkbun.ModifySettlesWhenFullySet | src/porkbun.rs:74-81 | with ttl and prio both set, the merged record is unmodified |
| Porkbun.ModifyIdempotent | src/porkbun.rs:62-83 | merging the same parameters twice is the same as merging once |
| Porkbun.StripSuffix | src/porkbun.rs:145-146 | the suffix is stripped iff the text ends with it, and the rest plus the suffix is the text |
| Porkbun.Localize | src/porkbun.rs:137-149 | a fetched record gains the domain; its name loses "." + domain when it ends with it and is kept otherwise; every other field is unchanged |
| Porkbun.LocalizeHost | src/porkbun.rs:138-147 | host + "." + domain is renamed host |
| Porkbun.LocalizeKeepsDomainName | src/porkbun.rs:138-147 | a record named exactly the domain keeps that name |
| Porkbun.LocalizeExample | src/porkbun.rs:138-147 | "host.example.com" becomes "host" and "example.com" stays "example.com" |
| Porkbun.LocalizeAll | src/porkbun.rs:135-151 | each fetched record is renamed in place, in order |
| Porkbun.ValidateResponse | src/porkbun.rs:221-238 | a reply is accepted iff it parses and its status is "SUCCESS"; no reply is a transport error; an unparsable body is a parse error; any other status is rejected with its message, or "" without one |
| Porkbun.CreatedId | src/porkbun.rs:172-179 | a string id is returned as is; a number id within u64 is returned as its decimal text, which reads back to it; anything else is "no id" |
| Porkbun.RetrievedRecords | src/porkbun.rs:133-153 | a rejected reply passes its error on; a reply without a record list fails; otherwise every record is renamed and carries the domain |
| Porkbun.CreateOutcome | src/porkbun.rs:171-179 | a create's result is the validation error, or the id read from the accepted reply |
| Porkbun.EditOutcome | src/porkbun.rs:200-202 | an edit succeeds iff its reply is accepted, and otherwise carries the validation error |
| PorkbunServer.MatchingAppend | src/porkbun.rs:119 | a lookup over a store with one more record finds the earlier matches, then that record if it matches |
| PorkbunServer.RewriteKeepsFirst | src/porkbun.rs:187 | editing the first match by its id, keeping its name and type, leaves the edited record as the first match |
| PorkbunServer.FirstMatchHasName | src/porkbun.rs:119 | the first record found by name carries that name |
| PorkbunClient.RetrieveByNameType | src/porkbun.rs:113-154 | one lookup call is logged, and the result is the checked and renamed reply of the provider |
| PorkbunClient.Create | src/porkbun.rs:156-180 | one create call is logged; the provider state and the result follow the provider's create step |
| PorkbunClient.Edit | src/porkbun.rs:182-203 | a record without a domain fails before any call; otherwise one edit call for that domain |
| PorkbunClient.CreateOrEdit | src/porkbun.rs:205-219 | result, provider state and calls issued are those of the protocol's specification |
| PorkbunClient.FailedReadWritesNothing | src/porkbun.rs:206-207 | a failed lookup fails the run, issues no write and leaves the provider unchanged |
| PorkbunClient.EmptyFetchCreatesOnce | src/porkbun.rs:208-209 | no record found: exactly one create and no edit; a successful create reports the new id as changed |
| PorkbunClient.NonEmptyFetchNeverCreates | src/porkbun.rs:210-217 | a record found: no create; the first record's id is reported; an edit is issued iff that record is modified, with the merged record |
| PorkbunClient.DomainChecksNeverFail | src/porkbun.rs:205-219 | within the protocol, the domain checks of merge and edit never fail |
| PorkbunClient.UpToDateAfterCreate | src/porkbun.rs:205-219 | after a create, a second run with the same parameters reports the same id up to date and writes nothing |
| PorkbunClient.SecondRunAfterEdit | src/porkbun.rs:211-216 | after an edit, a second run reports the same id, and reports it unchanged iff every unset ttl or prio held its default |
| PorkbunClient.ApexNeverUpToDate | src/porkbun.rs:135-151 | for the apex name and a non-empty domain, a successful run always reports a change |
| Agent.DnsCache.constructor | src/main.rs:41 | the cache starts empty |
| Agent.Cached | src/main.rs:66 | no contract of its own: a missing entry reads as the empty list; Agent.EmptyListIsCachedNotDispatched states the consequence |
| Agent.CacheAfter | src/main.rs:63-71 | no contract of its own: Agent.PassStep, Agent.CacheAfterEntries and Agent.EntryOfDistinct characterise it |
| Agent.CachedDispatches | src/main.rs:63-83 | no contract of its own: Agent.PassStep, Agent.DispatchesComeFromPairs, Agent.RepeatPassIsQuiet and Agent.FreshNamesDispatchEverything characterise it |
| Agent.UncachedDispatches | src/main.rs:74-82 | no contract of its own: Agent.PassStep and Agent.UncachedDispatchesAll characterise it |
| Agent.PassStep | src/main.rs:63-83 | one more pair extends the cache and the dispatches by that pair's effect |
| Agent.Spawn | src/main.rs:74-82 | the spawned updates are the earlier ones followed by one per address, in list order |
| Agent.UpdateOnce | src/main.rs:57-85 | with a cache: the new cache and the dispatches follow the pass's specification, with equal lists skipped and every changed entry overwritten, whatever the updates then do; without a cache: every address of every pair is dispatched, in order |
| Agent.CacheAfterEntries | src/main.rs:66-71 | after a pass, each name seen holds the last list given for it, and every other entry is unchanged |
| Agent.EntryOfDistinct | src/main.rs:66-71 | with distinct names, each pair's list is its name's entry after the pass |
| Agent.RepeatPassIsQuiet | src/main.rs:64-70 | with distinct names, a second pass over the same pairs dispatches nothing and leaves the cache unchanged |
| Agent.SharedNameRedispatches | src/main.rs:63-71 | two arguments for one name with different addresses dispatch both on every later pass over the same pairs |
| Agent.EmptyListIsCachedNotDispatched | src/main.rs:66-69 | a name with no entry and no addresses dispatches nothing but gains the entry [] |
| Agent.DispatchesComeFromPairs | src/main.rs:74-82 | every dispatch is an address of a pair with that name |
| Agent.UncachedDispatchesAll | src/main.rs:74-82 | without a cache, a (name, address) is dispatched iff some pair has that name and address |
| Agent.FreshNamesDispatchEverything | src/main.rs:64-82 | when no name of the pass is cached yet and names are distinct, the cached pass dispatches exactly what the uncached one does |
| Agent.UpdateParams | src/main.rs:89-99 | the parameters carry the domain and name, the type A for IPv4 or AAAA for IPv6, the address text, ttl "600" and no prio |
| Agent.ChangedAddressIsModified | src/main.rs:89-99 | a record up to date for one address is modified for any other address when either is IPv4 |
| Agent.Logged | src/main.rs:101-109 | the outcome is a failure iff the run failed, carrying its error; otherwise it names the record's id and is "updated" iff the run changed the record |
| Agent.UpdateDns | src/main.rs:87-110 | runs the protocol on the address's parameters and reports updated, up to date or failed, as the run's result says |
| Agent.AgentEditSettlesIffDefaultPrio | src/main.rs:97-98 | for a non-empty name, after the agent edits a record, the next run reports it up to date iff its prio was "0" |
| Agent.RunUpdates | src/main.rs:84 | every dispatched update runs in turn on the state the previous one left and yields its own outcome |
| Scenarios.AddressTexts | src/main.rs:96 | 203.0.113.5 and 203.0.113.9 are written as such |
| Scenarios.HomeParams | src/main.rs:89-99 | the parameters for "home" at either address are an A record with the address text, ttl "600" and no prio |
| Scenarios.FirstPassDispatches | src/main.rs:57-85 | the first pass with an empty cache dispatches "home" and caches its address; a second pass dispatches nothing |
| Scenarios.FirstPassCreates | src/porkbun.rs:205-219 | the dispatched update finds nothing and creates the A record for "home" with content "203.0.113.5" and ttl "600", under id 1 |
| Scenarios.AddressChangeDispatches | src/main.rs:64-82 | a changed address for "home" is dispatched |
| Scenarios.AddressChangeFinds | src/porkbun.rs:113-154 | the lookup finds the hosted record named "home" |
| Scenarios.AddressChangeEdits | src/porkbun.rs:205-219 | the found record has the old content, so it is edited to the new address and the run reports a change |

## Left out

- HTTP, JSON and serde. A reply is modelled as: no reply, an unparsable body, or a parsed body with status, message, id and record list. A record list of the wrong shape is the single error `BadRecords`.
- The API key and secret key environment variables, and `ping`. Credentials are taken as present.
- The provider itself. It is not part of this model's source. `PorkbunServer` is an abstract stand-in:
  - A lookup finds the hosted records of that domain, fully-qualified name and type.
  - A create appends a record under the next id. It stores the record under its fully-qualified name: `name.domain`, or the domain itself for the apex name `""` (`PorkbunServer.Qualify`).
  - A create fills an unset ttl with `"600"` and an unset prio with `"0"` (`PorkbunServer.NewRecord`). The client sends prio as given (src/porkbun.rs:165) and the agent never sets it (src/main.rs:98), so the prio a real provider stores is an assumption of the model.
  - An edit rewrites every record of the domain with that id, re-qualifying the body's name the same way (`PorkbunServer.EditedRecord`).
  - A failed call changes nothing, so a lost request is one the provider never applied.
- The command line (`clap`), the status and refresh HTTP handlers (`axum`), `main`, the pid file and `--test`.
- The hourly `update_loop`. A tick is a call of `Agent.UpdateOnce`.
- Tokio concurrency and the cache mutex. The spawned updates run one after another in spawn order (`Agent.RunUpdates`), so interleavings of concurrent updates against the provider are not modelled.
- Interface enumeration is a function parameter mapping an interface name to its addresses, or to nothing when it is missing or the lookup fails.
- Logging and tracing.
- Config.IsPublic: the parse of the constant "2000::/3" is taken to succeed, so its failure branch, which would reject every address, is not modelled.
- Net.Ipv6Text follows Rust's current `Display` for `Ipv6Addr` (IPv4-mapped form and first longest zero run of two or more). Apart from always holding a colon, no property of it is proved (in particular not that it is injective), so Agent.ChangedAddressIsModified says nothing when both addresses are IPv6.
- PorkbunClient.UpToDateAfterCreate, PorkbunClient.SecondRunAfterEdit, PorkbunClient.ApexNeverUpToDate, Agent.AgentEditSettlesIffDefaultPrio and Scenarios.FirstPassCreates hold for a provider that follows the three storage rules above (qualified names, ttl and prio defaults on create, re-qualified names on edit); a provider that stores names or defaults otherwise is not covered.
- PorkbunClient.UpToDateAfterCreate, PorkbunClient.SecondRunAfterEdit and Agent.AgentEditSettlesIffDefaultPrio require a non-empty name. For the apex name the reverse holds (PorkbunClient.ApexNeverUpToDate).
- PorkbunClient.UpToDateAfterCreate requires, for a provider that answers numeric ids, that the id fit in 64 bits.
- Errors are a datatype of kinds. The source's error texts are kept only where the model can name them: the domains of a mismatch, and the provider's message.
