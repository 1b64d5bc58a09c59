# optimiq-voice in Dafny

A model of the messaging contract that the parts of optimiq-voice share, of the two scripts that
rebuild routing state from the database, of the claims that keep a parked call on one engine, and of
the permission helpers of the web console, with proofs. Nothing was executed.

Check it with `dafny verify dfyconfig.toml`.

## What is modelled

**Subjects** (`Tokens`, `Matching`, `Subjects`, `SubjectLaws`). Every event travels on a dotted NATS
subject `<domain>.<feed>.v1.<org>[.<entity>.<event…>]`. The model has the token grammar, the
builders and filters of the eight families, the parser, and the matcher with `*` and `>`. The parser
is proved to be exactly the inverse of the layout on every string, every filter to deliver exactly
the events it names, and the builders to be injective across families.

**Streams and keys** (`Streams`, `ParkKeys`). The eight event streams and the key builders of the
key-value buckets. No string is stored by two streams, every event subject is stored by one, and
keys of different things are different.

**Envelopes** (`Envelopes`). Construction of envelopes, the tenancy check a consumer makes, and the
three registration constructors.

**The CDR codec** (`CdrCodec`, `CdrLaws`). Pinned fields plus preserved extras, as a mutable record
with marshal and unmarshal. Names are matched as Go's JSON package matches them, exactly or else up
to case, member after member.

**The DID index** (`Kv`, `DidIndex`, `DidIndexLaws`). The rebuild script as methods with its loops
over a bucket object, proved against a plan; then idempotence, recovery from interruption, agreement
with a scan of the table, and independence of the order rows are read in.

**Queue rosters** (`Uuids`, `QueueRoster`, `QueueRosterLaws`). The second rebuild script, tenant by
tenant, with range reads, a revision counter and removals; then what is left in each range,
isolation, order independence and exact counts.

**Park claims** (`ParkClaims`, `ParkSafety`, `ParkTheorems`, `ParkRetention`). Any number of engines
race for one orbit through a compare-and-set bucket: park, restore, heartbeat, retrieval, take-over
of an orphan, discard, teardown, drain and the bucket's own expiry. Each exchange with the bucket is
split into sending, serving and receiving, all of which interleave; requests may be served late,
after their sender gave up, and answers may be lost. An inductive invariant over every reachable
state gives exclusivity: no two engines, and no engine twice, hold a call on one orbit whose lease
is running. It assumes that a chain of requests is abandoned within half a lease, and excepts an
engine for as long as it holds a call whose release was granted without its hearing of it; the
exception is shown to be needed.

**The permission module printer** (`Literal`, `LiteralLaws`, `LiteralUnambiguous`). The script that
prints a registry tree as TypeScript source. The text determines the tree as long as no key has a
line end in it; and a reader of the notation undoes the printer for keys without colons.

**Permissions and pages** (`Permissions`, `Pages`). Role resolution, implied scopes, and the page
table lookup.

Values that come from outside are parameters: SHA-256, the clock, fresh ids, the formatting and
parsing of instants, the database rows, the contents of the buckets. Go strings are modelled as
Dafny strings; trimming and lower-casing are ASCII. Integers are unbounded: instants in nanoseconds,
counters and revisions do not approach the widths the source uses.

## Where the code and its documentation part

- The parser validates nothing but shape, so it accepts subjects no builder makes (an empty
  organization, for one). `ParsedSubjectRebuilds` says exactly when it and the builders agree.
- A stream filter ends in `>`, so a stream also stores subjects too short to parse, and the tenancy
  check accepts those for any organization. `CapturedSubjectParses` and `TenancyCheckIsExact` give
  the exact condition.
- The DID rebuild reads a field of whatever JSON it finds. On a stored `null` it stops half way;
  `Rebuild` says exactly when, and `EmptyTableStopsAtNull` that an empty table makes no difference.
  `InterruptedRunResumes` says that a later run that completes ends where this one would have.
- The roster rebuild takes the organization as typed. The database reads it as a uuid, in any case,
  with or without hyphens, braces or surrounding space; the bucket is addressed by the text itself.
  `OtherSpellingMissesItsTenant` says what a spelling other than the canonical one does, and
  `TurnReaches` that no spelling reaches anybody else's rosters.
- A retrieval whose release was granted but whose answer was lost leaves the call parked on an orbit
  that is free for others. `LostGrantDoubleBooks` shows that every such state can lead to a double
  booking; `OneLiveOwner` holds of every engine that is not holding such a call.
- An instant in the last hours of 9999 with an offset is accepted, printed with a five-digit year,
  and not accepted again: `RelayIsStable` and `LastEveningIsNotRelayed`.
- The printer writes keys unquoted, so keys with line ends in them are ambiguous
  (`OtherKeysCollide`); all others are not.
- Extras are documented as carried verbatim. One that spells a pinned key in another case is
  carried, and is also read into the field, over the field's own value if it sorts after it:
  `WhatArrives`, `OtherCaseTakesOver`. Relaying such a record changes it once and then no more
  (`RelaySettles`).
- The comment on the page lookup promises that a nested view is never less protected than the page
  it lives under. That fails below a `[param]` page and below a page declared at `/`.
  `NestedViewInherits` gives the exact condition.

## Model

| member | source | states |
|---|---|---|
| Tokens.IsSubjectToken | packages/events-go/subjects.go:132-142 | the byte loop accepts exactly the non-empty strings of token bytes |
| Tokens.IsEventName | packages/events-go/subjects.go:145-155 | accepts exactly the strings whose dot-separated parts are all tokens |
| Tokens.TokenAlphabet | packages/events-go/subjects.go:123-128 | the token bytes are the letters, the digits, `_` and `-` |
| Tokens.TokenIsAtom | packages/events-go/subjects.go:132-142 | a token is one part of a subject and neither is nor contains a wildcard |
| Tokens.DIDIndexToken | packages/events-go/subjects.go:204-215 | yields the digits of the number, and fails exactly when there are none |
| Tokens.DidTokenIgnoresPunctuation | packages/events-go/subjects.go:204-215 | inserting anything without digits, anywhere, changes neither the digits nor whether there is a token |
| Tokens.DigitsOfDigits | packages/events-go/subjects.go:204-215 | digits are left as they are, and pass the token check |
| Tokens.AorTokenIdentifies | packages/events-go/subjects.go:184-191 | fails exactly on a blank address; otherwise a 32-character token, equal for two addresses exactly when the first 128 bits of the digests of their normal forms are |
| Tokens.AorTokenIgnoresCaseAndSpace | packages/events-go/subjects.go:184-191 | the same address in other letter case or with surrounding space has the same token |
| Matching.MatchesSubject | packages/events-go/subjects.go:707-726 | the early-exit loop decides the recursive matching rule for every filter and subject |
| Matching.MatchIsAgreement | packages/events-go/subjects.go:707-726 | the rule without recursion: same length and agreement token by token, or, when the only `>` is final, agreement up to it and something more; a filter with an earlier `>` matches nothing |
| Subjects.ParseInvertsPrint | packages/events-go/subjects.go:623-681 | for every string and value: it parses to that value if and only if the value is well shaped and the string is its layout |
| SubjectLaws.EntitySubjectParses | packages/events-go/subjects.go:222-310 | an entity builder succeeds exactly on valid tokens and event name, and parsing gives back family, organization, entity and the whole event name |
| SubjectLaws.OrgSubjectParses | packages/events-go/subjects.go:312-337 | an organization builder succeeds exactly on a valid token, and parsing gives it back |
| SubjectLaws.BuildersInjective | packages/events-go/subjects.go:222-337 | no two argument lists, of one family or of two, build the same subject |
| SubjectLaws.ParsedSubjectRebuilds | packages/events-go/subjects.go:623-681 | a parsed event can be rebuilt exactly when its tokens are valid, and then to the very subject parsed |
| SubjectLaws.ParserAcceptsUnbuildable | packages/events-go/subjects.go:623-681 | an empty organization token parses, in every entity family, and no builder makes it |
| SubjectLaws.RootsOnTheWire | packages/events-go/subjects.go:40-47 | the eight roots as text |
| SubjectLaws.SubjectsOnTheWire | packages/events-go/subjects.go:222-337 | an entity subject, an organization subject and an rpc subject as text |
| SubjectLaws.EntityBuilderReports | packages/events-go/subjects.go:222-310 | a builder that fails reports the first invalid argument under its own name |
| SubjectLaws.AllFilterSelects | packages/events-go/subjects.go:343-345 | a family's widest filter takes exactly the strings under its root, of any length for an entity family, of four tokens for the others |
| SubjectLaws.InOrgFilterSelects | packages/events-go/subjects.go:347-353 | of the parsed subjects, exactly those of the family and organization |
| SubjectLaws.EntityFilterSelects | packages/events-go/subjects.go:356-366 | of the parsed subjects, exactly those of the family, organization and entity |
| SubjectLaws.EventInOrgFilterSelects | packages/events-go/subjects.go:369-379 | of the parsed subjects, exactly those of the family and organization with that whole event name, whatever the entity |
| SubjectLaws.CallEventFilterSelects | packages/events-go/subjects.go:382-388 | of the parsed subjects, exactly the call events with that whole event name, whatever the organization |
| SubjectLaws.FiltersNeedTokens | packages/events-go/subjects.go:347-388 | a filter is built if and only if its arguments are valid, so never for a wildcard organization |
| Streams.StreamsDisjoint | packages/events-go/streams.go:81-233 | no string, published or not, is stored by two streams |
| Streams.ParsedSubjectIsCaptured | packages/events-go/streams.go:81-233 | a parsed subject is stored by the stream of its family and by no other, an rpc subject by none |
| Streams.CapturedSubjectParses | packages/events-go/subjects.go:694-700 | a stored string is attributed to its stream's family exactly when it has no wildcard and, in an entity family, six tokens or more |
| Streams.EveryFamilyHasItsStream | packages/events-go/streams.go:81-233 | the eight streams cover the eight families |
| Streams.StreamsAsDeclared | packages/events-go/streams.go:81-233 | the names and subjects of the eight streams as text |
| Streams.KeysNeedTokens | packages/events-go/streams.go:494-583 | a key is built if and only if its arguments are tokens and there is at most one discriminator |
| Streams.OrgKeyInjective | packages/events-go/streams.go:494-504 | a two-part key determines the organization and the value |
| Streams.ChannelKeyInjective | packages/events-go/streams.go:508-522 | a channel key determines organization, call and leg |
| Streams.RoutingCacheKeyInjective | packages/events-go/streams.go:562-583 | a routing-cache key determines organization, artifact and discriminator, and whether there is one |
| Streams.DidIndexKeyIsDigits | packages/events-go/streams.go:590-596 | a number has a key exactly when it has a digit, two numbers share one exactly when they have the same digits in order, and a key is its own key |
| Streams.OrgRangeSelects | packages/events-go/streams.go:605-615 | the range `<org>.*` selects exactly that organization's two-part keys |
| Streams.PairRangeSelects | packages/events-go/streams.go:562-583 | the range `<org>.<name>.*` selects exactly the three-part keys below, and so not an artifact's undiscriminated one |
| Streams.AnyRangeOnOrgKey | packages/events-go/streams.go:605-615 | a range built from an arbitrary string selects a tenant's key exactly when the string is that tenant or `*` |
| ParkKeys.ParkClaimKeyIdentifies | packages/events/src/streams.ts:875-877 | an orbit has a key exactly when its organization and lot are tokens, and two orbits never share one |
| Envelopes.ToMillis | packages/events-go/envelope.go:52-54 | the whole millisecond at or before the instant |
| Envelopes.NewEnvelope | packages/events-go/envelope.go:130-150 | a given id and instant are kept, to the millisecond, missing ones are filled in, and nothing else changes |
| Envelopes.CheckedEventIsTheTenants | packages/events-go/envelope.go:176-191 | a consumer of one organization's filter that checks what it is delivered accepts, on subjects that parse, only that organization's envelopes |
| Envelopes.CheckOfBuiltSubject | packages/events-go/envelope.go:176-191 | on a built subject of any family the check accepts exactly the envelopes of that subject and organization |
| Envelopes.TenancyCheckIsExact | packages/events-go/envelope.go:176-191 | on any delivered subject the check pins the organization if and only if the subject has no wildcard and, in an entity family, six tokens or more |
| Envelopes.RegistrationEnvelope | packages/events-go/registration.go:14-29 | fails exactly on a blank address, an invalid organization or an invalid event type; otherwise hash, subject and envelope agree |
| Envelopes.RegistrationSubjectsEnd | packages/events-go/registration.go:33-68 | the subject of each of the three registration events as text |
| Envelopes.NewRegistrationEnvelope | packages/events-go/registration.go:33-68 | fails exactly on a blank address or invalid organization; otherwise subject, hash and payload agree, the consumer's check accepts it, and the only device filter that delivers it is its own |
| CdrCodec.MarshalWithExtras | packages/events-go/passthrough.go:15-35 | the merged object is the extras overridden by the emitted fields |
| CdrCodec.UnmarshalWithExtras | packages/events-go/passthrough.go:37-60 | exactly the keys outside the contract, with their values |
| CdrCodec.Record.MarshalJson | packages/events-go/cdr_events_gen.go:52-55 | writes the encoding of the record, in the order of the struct without extras and sorted with them, and leaves the record as it was |
| CdrCodec.Record.UnmarshalJson | packages/events-go/cdr_events_gen.go:57-68 | the record becomes the decoded value, or a field that cannot be read is reported and the record stays as it was |
| CdrLaws.DecodeSplitsKeys | packages/events-go/passthrough.go:37-60 | a decoded value is well typed and its extras are exactly the unknown keys with their values |
| CdrLaws.UnknownKeysSurvive | packages/events-go/passthrough.go:15-60 | relaying a record keeps every unknown key with its value and adds none |
| CdrLaws.PinnedFieldWins | packages/events-go/passthrough.go:15-35 | an emitted field carries its own value whatever the extras hold |
| CdrLaws.FieldIsWritten | packages/events-go/cdr_events_gen.go:22-55 | text, integers and instants are written as themselves, an empty field only if an extra has its key |
| CdrLaws.MemberDecodesTo | packages/events-go/cdr_events_gen.go:57-68 | under a field's own key, with no other spelling: a null empties an optional field, which is then not emitted, and leaves other text and integers at zero; text, an integer and a readable instant decode to themselves |
| CdrLaws.MemberIsRefused | packages/events-go/cdr_events_gen.go:57-68 | such a member is read if and only if it is a null, except in a required instant, or a value of the kind of the field |
| CdrLaws.NamesFold | packages/events-go/cdr_events_gen.go:57-68 | in a name a capital counts as its small letter, the long s and the Kelvin sign as `s` and `k`, any other character as itself |
| CdrLaws.AbsentMember | packages/events-go/cdr_events_gen.go:57-68 | a key that nothing spells leaves an optional field empty and the others at zero |
| CdrLaws.LastMemberWins | packages/events-go/passthrough.go:37-44 | for every wire text: a field can be read exactly when every member that names it, exactly or up to case, is acceptable, and is then what the last of them with an effect makes it |
| CdrLaws.EncodeThenDecode | packages/events-go/cdr_events_gen.go:52-68 | with extras that spell no pinned key in any case, decoding what was encoded gives the value back to the millisecond, or fails if some instant is outside years 0 to 9999; exactly the value if and only if it is whole milliseconds of those years |
| CdrLaws.DecodeOfEncode | packages/events-go/cdr_events_gen.go:52-68 | for every record: whether what was encoded decodes at all, and each field as the greatest key that names it makes it |
| CdrLaws.WhatArrives | packages/events-go/cdr_events_gen.go:52-68 | the same in terms of the record: a field arrives as sent, to the millisecond, unless an extra that spells its key in another case sorts after it and takes it over |
| CdrLaws.EncodedIsReadable | packages/events-go/cdr_events_gen.go:52-68 | an encoded record decodes if and only if its instants are in years 0 to 9999 and each extra that spells the key of a field, in whatever case, is one that field accepts |
| CdrLaws.RoundTripIsExact | packages/events-go/cdr_events_gen.go:52-68 | decoding undoes encoding if and only if no extra is under a pinned key, instants are in years 0 to 9999, extras in another case are acceptable, and each field is whole milliseconds and not taken over, or taken over by an extra that says the same |
| CdrLaws.ExtraFillsOmittedField | packages/events-go/cdr_events_gen.go:52-68 | an extra under the key of an omitted field, other than null, comes back as that field and not as an extra |
| CdrLaws.RelayIsStable | packages/events-go/envelope.go:57-74 | what a decodable record is relayed as decodes if and only if its instants are in years 0 to 9999 in UTC, and is then relayed unchanged if and only if no extra in another case takes over a field with something written differently |
| CdrLaws.RelaySettles | packages/events-go/passthrough.go:15-60 | whatever the first relay changed, the second changes nothing more |
| CdrLaws.LastEveningIsNotRelayed | packages/events-go/envelope.go:57-74 | the failing input: the last hour of 9999 west of Greenwich decodes, and its relayed record does not |
| CdrLaws.OtherCaseTakesOver | packages/events-go/cdr_events_gen.go:22-49 | of the generated struct: an extra `callid` arrives as the call id |
| CdrLaws.CdrLegKeysDistinct | packages/events-go/cdr_events_gen.go:22-49 | the twenty pinned keys are distinct up to case, so the laws apply to the generated struct |
| Kv.Bucket.Put | apps/api/scripts/rebuild-did-index.ts:172-196 | the key gets the value and moves to the end of the listing |
| Kv.Bucket.Delete | apps/api/scripts/rebuild-did-index.ts:198-231 | the key is gone from contents and listing |
| Kv.Bucket.Keys | apps/api/scripts/rebuild-queue-membership.ts:128-147 | lists exactly the stored keys the filter matches, each once, in stream order |
| DidIndex.GroupByToken | apps/api/scripts/rebuild-did-index.ts:121-135 | each token with its rows in order, each token listed once, and the number of rows without digits |
| DidIndex.FindContested | apps/api/scripts/rebuild-did-index.ts:137-146 | exactly the tokens claimed by two organizations |
| DidIndex.ChooseDesired | apps/api/scripts/rebuild-did-index.ts:157-170 | the entry of the first row, for exactly the uncontested tokens |
| DidIndex.WriteDesired | apps/api/scripts/rebuild-did-index.ts:172-196 | writes exactly the entries that differ, counts both kinds, and stops exactly at a stored null, with a prefix written |
| DidIndex.Examine | apps/api/scripts/rebuild-did-index.ts:198-231 | decides to keep, drop or trip exactly as the removal rule says; a null trips the search for an owner, or, in an empty table, the report of the orphan |
| DidIndex.RemoveStale | apps/api/scripts/rebuild-did-index.ts:198-231 | removes and counts exactly the removable keys, and stops exactly when some key trips it |
| DidIndex.Rebuild | apps/api/scripts/rebuild-did-index.ts:121-239 | reports the plan and leaves the planned bucket, or on a dry run the bucket it found; fails exactly on the stored nulls it reads, with every key at its old or final value |
| DidIndex.FinalAt | apps/api/scripts/rebuild-did-index.ts:157-231 | the planned bucket key by key |
| DidIndex.EmptyTableStopsAtNull | apps/api/scripts/rebuild-did-index.ts:217-224 | with no rows the run stops exactly when it does not prune and some stored value is null, because the report of an orphan reads it |
| DidIndexLaws.SecondRunIsIdle | apps/api/scripts/rebuild-did-index.ts:121-239 | after a completed run a second one writes and removes nothing, and does not fail |
| DidIndexLaws.InterruptedRunResumes | apps/api/scripts/rebuild-did-index.ts:172-231 | from any bucket between old and planned, the plan is the same final bucket |
| DidIndexLaws.IndexAgreesWithScan | apps/api/scripts/rebuild-did-index.ts:121-231 | looking up a number in the rebuilt index agrees with scanning the table: with one owner, the organization, id, number and state of the first row with those digits; a contested number as before; an unknown one at most an unpruned orphan |
| DidIndexLaws.KeyOutcome | apps/api/scripts/rebuild-did-index.ts:157-231 | desired keys are rewritten, contested ones kept unless unreadable, and a readable entry under an unclaimed key survives if and only if orphans are not pruned and no row is its organization's |
| DidIndexLaws.RowOrderIsImmaterial | apps/api/scripts/rebuild-did-index.ts:121-170 | any order of the rows gives the same keys and owners, and the same everything else |
| DidIndexLaws.RowOrderKeepsCounts | apps/api/scripts/rebuild-did-index.ts:233-239 | and the same removals, conflicts and failures, and completes in the same cases |
| QueueRoster.ReadPrevious | apps/api/scripts/rebuild-queue-membership.ts:128-147 | the revisions of the readable rosters in the range |
| QueueRoster.PutRosters | apps/api/scripts/rebuild-queue-membership.ts:164-172 | puts exactly the wanted rosters, or on a dry run none, and fails exactly when some key cannot be built |
| QueueRoster.DropUnwanted | apps/api/scripts/rebuild-queue-membership.ts:173-181 | deletes and counts exactly the listed keys that are not wanted |
| QueueRoster.RebuildTenant | apps/api/scripts/rebuild-queue-membership.ts:126-187 | one turn once the rows are read, for any string: the planned bucket and counts, nothing outside its range and its own keys touched |
| QueueRoster.RebuildOrganization | apps/api/scripts/rebuild-queue-membership.ts:120-187 | a turn for any string: one that is not a uuid after trimming fails with the bucket untouched, any other gets a turn on the rows of the id it names, under its own spelling |
| QueueRosterLaws.ScopedReadByOwnId | apps/api/scripts/rebuild-queue-membership.ts:121-124 | by its own id an organization is read with its queues, or none; only texts of uuids are read at all |
| QueueRoster.Rebuild | apps/api/scripts/rebuild-queue-membership.ts:116-187 | the whole run: planned bucket and counts, each turn computed from the bucket at the start; a dry run counts the same and changes nothing; keys outside the visited ranges stay |
| QueueRoster.TurnIsLocal | apps/api/scripts/rebuild-queue-membership.ts:128-172 | a turn depends on nothing but the organization's own range |
| QueueRosterLaws.RunFinalAt | apps/api/scripts/rebuild-queue-membership.ts:116-187 | each visited range ends as that organization's rosters and nothing else, every other key as it was |
| QueueRosterLaws.RangeIsTheProjection | apps/api/scripts/rebuild-queue-membership.ts:116-187 | each queue of a visited organization ends with a roster that names it, carries its contents and follows on from the revisions listed, and its range holds no other key |
| QueueRosterLaws.TenantOrderIsImmaterial | apps/api/scripts/rebuild-queue-membership.ts:116-187 | the order organizations are visited in does not matter |
| QueueRosterLaws.RevisionAdvances | apps/api/scripts/rebuild-queue-membership.ts:128-172 | for every bucket: a roster is written at one more than the revision of the last roster listed in the range that names the queue, and at one if none does |
| QueueRosterLaws.RevisionAdvancesInPlace | apps/api/scripts/rebuild-queue-membership.ts:128-172 | so with every roster under its own key, each advances by one |
| QueueRosterLaws.RemovedCountsGoneKeys | apps/api/scripts/rebuild-queue-membership.ts:173-187 | the reported removals are exactly the keys the bucket held and no longer holds |
| QueueRosterLaws.TurnReaches | packages/db/src/tenant/tenant-scope.ts:29-34 | a turn whose string survives the tenant scope reaches a stored roster if and only if the string is that tenant's id letter by letter |
| QueueRosterLaws.OtherSpellingMissesItsTenant | apps/api/scripts/rebuild-queue-membership.ts:120-172 | any other spelling of an id reads that tenant's rows and writes its rosters under the spelling, leaving those under the id as they were |
| QueueRosterLaws.OtherCaseIsAnotherSpelling | packages/db/src/tenant/tenant-transaction.ts:30-39 | such spellings exist: an id in another case names the same rows and is as good a token |
| Uuids.CastIsTame | packages/db/src/tenant/tenant-scope.ts:29-34 | what the cast accepts names some canonical id and is hexadecimal digits, hyphens and braces only |
| Uuids.CastOfUuid | packages/db/src/tenant/tenant-scope.ts:29-34 | a canonical id is read as itself |
| Uuids.CanonicalGroups | packages/db/src/tenant/tenant-scope.ts:29-34 | the canonical text has groups of 8, 4, 4, 4 and 12 digits |
| Uuids.CastIgnoresCase | packages/db/src/tenant/tenant-scope.ts:29-34 | the cast does not see the case of letters |
| ParkTheorems.StepKeepsInv | apps/engine/src/routing/park-registry.ts:233-597 | every step of the protocol, by any instance or by the bucket, keeps the invariant |
| ParkTheorems.OneLiveOwner | apps/engine/src/routing/park-registry.ts:233-597 | in every reachable state, two live holds on one orbit are the same instance's hold of the same call, unless one of the instances holds a call whose release was granted unheard |
| ParkTheorems.MisledStillHolds | apps/engine/src/routing/park-registry.ts:295-335 | that exception ends when the instance holds nothing and is about to hold nothing |
| ParkTheorems.OnlyLostGrantsMislead | apps/engine/src/nats/claim-store.ts:185-201 | and begins only when a release is served at the stored revision and its answer is lost or comes too late, while the instance holds a call |
| ParkTheorems.LiveHoldIsStored | apps/engine/src/routing/park-registry.ts:490-640 | a live hold is backed by a stored claim of the same instance that is good at least as long |
| ParkTheorems.GoodClaimIsKept | apps/engine/src/nats/claim-store.ts:149-201 | whatever is lost or late, no step takes a claim that has not expired from its owner or brings its expiry closer, except the owner's own delete at its revision |
| ParkTheorems.RetrievalReturnsItsCall | apps/engine/src/routing/park-registry.ts:312-333 | when a release was granted, what stands on the orbit locally is the call retrieved or nothing, though the code removes whatever stands there |
| ParkTheorems.LostGrantDoubleBooks | apps/engine/src/nats/claim-store.ts:185-201 | from every state with a live hold whose release is about to be granted, losing the answer lets any idle instance hold a call on the same orbit at the same time |
| ParkTheorems.DoubleBookingIsReachable | apps/engine/src/routing/park-registry.ts:295-335 | for any two instances and calls such a run exists, from an empty bucket |
| ParkTheorems.ParksAtOnce | apps/engine/src/routing/park-registry.ts:549-640 | an idle instance can park on a free orbit and then holds it at the stored revision |
| ParkTheorems.ReapsWhenExpired | apps/engine/src/routing/park-registry.ts:578-591 | from every reachable state whose stored claim has expired, any idle instance can reap it and then holds the orbit live: a crash is survivable |
| ParkTheorems.CollectsWhenExpired | apps/engine/src/routing/park-registry.ts:377-402 | or win the right to collect the call that was left there |
| ParkTheorems.HeartbeatRenews | apps/engine/src/routing/park-registry.ts:490-509 | from a live hold at the stored revision, a heartbeat, its answer and its receipt leave the claim the instance's for a whole lease from the pass, and the hold with that lease at the new revision |
| ParkTheorems.HeartbeatAdopts | apps/engine/src/routing/park-registry.ts:524-527 | a heartbeat that finds a newer write of its own instance adopts its revision |
| ParkTheorems.HeartbeatDrops | apps/engine/src/routing/park-registry.ts:528-534 | one that finds the orbit in other hands or free drops the hold and leaves the bucket alone |
| ParkTheorems.RetrievalFreesOrbit | apps/engine/src/routing/park-registry.ts:305-328 | a retrieval of a call held at the stored revision takes it out of its slot and frees the orbit |
| ParkTheorems.RefusedRetrievalKeepsCall | apps/engine/src/routing/park-registry.ts:315-321 | one whose claim has moved on is refused and changes nothing |
| ParkTheorems.CollectorFreesOrbit | apps/engine/src/routing/park-registry.ts:414-429 | the collector of an orphan frees the orbit |
| ParkTheorems.QuietEffects | apps/engine/src/routing/park-registry.ts:472-545 | the end of a channel and a drain drop the hold and keep the claim; an unrenewed claim goes after the bucket's time to live; giving up on a release keeps the call and the request |
| ParkTheorems.OneCollector | apps/engine/src/routing/park-registry.ts:365-402 | two instances that may collect an orphan are the same instance |
| ParkTheorems.NoHoldWhileCollecting | apps/engine/src/routing/park-registry.ts:365-402 | while an orphan is collected nobody outside the exception holds a call on the orbit |
| ParkSafety.ServeKeepsCustody | apps/engine/src/nats/claim-store.ts:149-201 | serving a request never takes a good claim from an instance other than its sender |
| ParkSafety.WinServed | apps/engine/src/routing/park-registry.ts:549-597 | a take or take-over that succeeds in time finds every earlier hold of its own instance already released at the bucket |
| ParkSafety.RenewalServed | apps/engine/src/routing/park-registry.ts:494-509 | an instance's renewal only ever moves the stored expiry forward |
| ParkSafety.ReleaseServed | apps/engine/src/routing/park-registry.ts:312-333 | granting a release leaves nothing of the instance at stake but the hold that is waiting for the news |
| ParkSafety.DiscardServed | apps/engine/src/routing/park-registry.ts:414-430 | a discard that finds its claim stored finds its instance holding nothing |
| ParkSafety.Recorded | apps/engine/src/routing/park-registry.ts:630-640 | recording a park keeps the instance sound: the hold outlasts every chain under way and no request can delete its claim |
| ParkSafety.Learned | apps/engine/src/routing/park-registry.ts:504-527 | adopting a revision, written or read back, keeps the instance sound |
| ParkRetention.LiveHoldIsKept | apps/engine/src/routing/park-registry.ts:490-536 | no step but the end of the channel or a drain removes a live hold: heartbeats, late answers and other parks leave it, with its lease |
| ParkRetention.RefusalServed | apps/engine/src/routing/park-registry.ts:519-533 | a read that finds the orbit in other hands finds every hold it could drop already run out |
| LiteralLaws.ReadPrinted | apps/web/scripts/sync-permissions.ts:43-61 | reading a printed tree followed by anything gives the tree and the rest, at every indentation |
| LiteralLaws.RoundTripIsExact | apps/web/scripts/sync-permissions.ts:43-61 | this reader undoes printing if and only if every key is plain: no colon or line end in it, and no blank or closing brace first |
| LiteralLaws.LayoutOfMembers | apps/web/scripts/sync-permissions.ts:43-61 | one member a line, a tab deeper, with a comma after it, keys as they are |
| LiteralLaws.LayoutOfScalars | apps/web/scripts/sync-permissions.ts:43-61 | scalars, empty collections and escapes as text |
| LiteralUnambiguous.PrinterIsInjective | apps/web/scripts/sync-permissions.ts:43-61 | as long as no key has a line end in it, whatever else keys contain, different registries print differently |
| LiteralUnambiguous.Delimited | apps/web/scripts/sync-permissions.ts:43-61 | a printed value ends where it must: no text starts with two values |
| LiteralUnambiguous.KeyIsDetermined | apps/web/scripts/sync-permissions.ts:43-61 | the key of an entry is determined by its text, wherever colons occur in key or value |
| LiteralLaws.IdentifierIsPlain | apps/web/scripts/sync-permissions.ts:43-61 | identifiers, the keys that make the text TypeScript, are plain |
| LiteralLaws.OtherKeysCollide | apps/web/scripts/sync-permissions.ts:43-61 | otherwise not: a key with a line end in it can print like two entries |
| Permissions.ScopesAreImplied | apps/web/lib/permissions.ts:49-59 | a scope is held if and only if it is granted, or registered and its action granted; an unscoped permission if and only if it is granted |
| Permissions.LeastPrivilegedByMembershipRole | apps/web/lib/permissions.ts:89-95 | the loop computes the fallback template of each membership role |
| Permissions.FallbackIsLeastPrivileged | apps/web/lib/permissions.ts:89-95 | that is the earliest of the templates of the role with the fewest permissions, and there is one unless no template has the role |
| Permissions.ResolveRolePermissions | apps/web/lib/permissions.ts:97-121 | the nested loops collect the union over the comma-separated parts, each permission once |
| Permissions.OneRoleGrants | apps/web/lib/permissions.ts:80-121 | up to case and space, the name of a template grants that template's permissions, another membership role those of the earliest of its least privileged templates, and any other name nothing |
| Permissions.RolesGrantTheirUnion | apps/web/lib/permissions.ts:97-121 | two roles grant exactly what each grants |
| Permissions.UnknownRoleAddsNothing | apps/web/lib/permissions.ts:97-121 | a name that is no role adds nothing, and alone grants nothing |
| Pages.LookupWalksUp | apps/web/lib/page-permissions.ts:124-139 | for every table, filtering by prefix and sorting by length finds what walking from parent to parent finds |
| Pages.LookupIsLongestDeclared | apps/web/lib/page-permissions.ts:124-139 | without parameters, the requirement is that of the longest declared pattern that is the path or above it |
| Pages.AccessMeans | apps/web/lib/page-permissions.ts:141-149 | access is every permission of the page found, or any of them if there are some, and a path with no page is open |
| Pages.NearestPageDecides | apps/web/lib/page-permissions.ts:124-149 | without parameters the nearest declared page decides access |
| Pages.ParameterStandsForOneSegment | apps/web/lib/page-permissions.ts:100-115 | `/a/[p]` matches `/x/b` if and only if `x` is `a`, and nothing with a third segment |
| Pages.NormalizeStrips | apps/web/lib/page-permissions.ts:125 | normalizing takes away trailing slashes and nothing else, and leaves the root |
| Pages.NestedViewInherits | apps/web/lib/page-permissions.ts:124-139 | an undeclared view has the entry of the page it lives under, the root included, if and only if that page has none of its own, or has one under its very path and is not the root, or is the root and the view starts with two slashes |
| Pages.BelowAParameterNothingIsRequired | apps/web/lib/page-permissions.ts:100-139 | the first failing case: below `/a/[param]` nothing is required |
| Pages.BelowTheRootNothingIsRequired | apps/web/lib/page-permissions.ts:134-138 | the second failing case: what `/` requires, nothing below it does |
| Pages.TrailingSlashIgnored | apps/web/lib/page-permissions.ts:124-139 | a trailing slash makes no difference |
| Pages.AccessIsMonotone | apps/web/lib/page-permissions.ts:141-149 | granting more never loses a page |

## Left out

- The shared stream settings (retention, limits, replicas) and the lookups by name: tables of
  constants.
- `EventTypesOfFamily` and the payload schemas: lists the laws do not depend on.
- The media-session key: a bare token, already covered by the token laws.
- Duplicate members of one JSON object, number formatting, and Go's folding of letters outside ASCII
  other than the two that fold to ASCII letters.
- Calendar formatting of instants: the clock is any pair of functions such that a printed instant
  reads back to the millisecond in years 0 to 9999 and does not read back outside them.
- The contents of a queue roster beyond its id and revision: they are copied.
- Command-line parsing, logging and exit codes of the scripts.
- Two orbits at once: the park model follows one orbit, which `ParkClaimKeyIdentifies` justifies as
  far as the bucket goes. A media channel parked on two orbits of one engine at the same moment,
  which the registry's index by channel could not represent, is not modelled.
- `lot-full` and the choice of a slot: a park that loses an orbit starts again on another, and is
  here a park of that other orbit.
- Clock skew between engines: the park model has one clock.
- Answers overtaking each other on their way to one engine: the park model delivers them in the
  order the broker produced them.
- The registry's maps are modelled as values in a state machine, not as objects: an engine's code
  runs without interruption between two awaits, so nothing but the state at each await matters.
- Registries without a configured bucket, where every claim succeeds.
- The conference registry, which adopts where the park registry drops.
- QueueRoster.Rebuild: for lists of distinct valid organizations, which is what its query returns;
  `QueueRoster.RebuildTenant` has no such proviso.
- ParkTheorems.OneLiveOwner: excepts an engine while it holds a call whose release was granted
  unheard, because `ParkTheorems.LostGrantDoubleBooks` shows the claim false for it.
- ParkTheorems.LiveHoldIsStored: has the same exception, for the same reason.
- ParkTheorems.RetrievalReturnsItsCall: has the same exception.
- ParkRetention.LiveHoldIsKept: has the same exception.
- Heartbeat passes of one engine that overlap: a renewal is stamped with a time at which its hold
  was already known at the revision it quotes, as the single-flight tick of
  `apps/engine/src/routing/claim-heartbeat.service.ts:98-112` ensures.
- A heartbeat pass renewing, from its snapshot, a hold that was forgotten after the pass began.
- NATS's own check of search keys, which refuses a range that starts with a brace or a space.
- LiteralLaws.RoundTripIsExact: the only-if half is about the reader given here, which refuses keys
  with colons; `LiteralUnambiguous.PrinterIsInjective` does without it.
