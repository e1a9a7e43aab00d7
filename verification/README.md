# rcvd in Dafny

A model of rcvd, an encrypted-only DNS forwarder, and proofs about it: the DNSSEC chain of trust, the
DoQ connection pool, the response cache and the query pipelines that share it, the fallback chain, the
allowlist and blocklist, stream framing and the latency recorder.

Cryptography, NSEC3 hashing, packing, truncation, the network, other goroutines and the clock are
function-valued parameters (`Crypto`, `World`, `Packer`, `Setup`), so every theorem holds for all of
them; the few facts assumed of packing and truncation are named predicates (`Packs`, `Truncates`,
`IdBlind`) that appear as preconditions.

| file | part of the program |
|---|---|
| `Dns`, `Zones` | names, records, messages; labels and parents |
| `Signatures`, `Denial`, `KeyCache`, `Chain` | signature scan, denial of DS, key cache, the walk |
| `Trust`, `Transparency`, `LastAttempt`, `Validation` | soundness, cache transparency, one walk in detail, the verdict on a response |
| `Completeness`, `KeyAge` | exactly when an answer is secure, insecure or bogus; how old a cached key set can be |
| `DoqPool`, `DoqOutcomes` | the shared QUIC connection under every interleaving; how each query ends |
| `Edns`, `ResponseCache`, `CacheHistory` | reply clean-up, the response cache, its histories |
| `Lists`, `ListFiles`, `Policy` | blocklist and allowlist, what their files mean, the composed policy |
| `Serving`, `Guarantees` | the interleaved query pipelines and what holds over every run |
| `Decisions`, `Sources` | every case of what one query is answered with; where every reply of a run comes from |
| `Server`, `HandlerRuns` | the handlers as programs, and that they are runs of the pipelines |
| `Staleness`, `Reloads` | how old an answer can get; what a reload between two checks can do |
| `Replies`, `SharedKeys` | a hit against the reply that was sent; types that share a cache key |
| `Framing` | length-prefixed streams |
| `Fallback`, `Latency` | upstream health, lock-free counters |

Code that works in place is a class or a looping method (`Validator`, `RRsetCache`, `Cache`,
`Blocklist`, `Allowlist`, `Policy`, `FallbackResolver`, `Listener`, `Conn`, `FilterInPlace`), proved
against a specification function; what the program is for is then proved of that function. Concurrency
is a machine with one step per lock section or atomic operation, and theorems over every sequence of
steps. In the query pipelines the two lists have a lock each, so a query's allowlist check, its blocklist
check and every single look at a name of the answer are separate steps with reloads possible in between;
a counter moves together with the lock section or send it follows.

Where the code and its documentation disagree the model follows the code:

- `internal/resolver/doq.go:129` speaks of a guaranteed-fresh connection; the retry can be handed one
  that a sibling query dialed earlier (`RetryCanReuseASibling`, `RetryIsFreshIff`).
- `internal/dnssec/nsec3.go:65-70` says only a bad signature stays bogus; what decides is the last
  attempt, so a bad signature followed by an unusable key is reported as insecure (`LastAttemptDecides`,
  `BadSignatureCanEndInsecure`).
- `internal/server/server.go:616-624` calls stale answers bounded; after a bogus reply the stale entry is
  stored again and is fresh for another lifetime. Age is bounded while that does not happen
  (`AgeIsBounded`, `BogusStoresIff`, `StaleBecomesFresh`), and not at all once it may (`NoBoundOnAge`).
- `internal/policy/policy.go:78-112` and `internal/policy/policy.go:114-122` read as one decision; with
  reloads in between a query, or an answer, can pass although no lists ever in force admit it
  (`ListsAtAnInput`, `RecordsAtAnInput`). For a query that takes a reload of the allowlist and after it one
  of the blocklist between its two checks, for an answer a reload of the allowlist between two looks at
  it; no other order of reloads does it (`QuerySlipsIff`, `AnswerSlipsIff`).
- `internal/dnssec/validator.go:60-62` says a nil result means valid. AD is also set with nothing verified:
  on every reply when validation is configured off, since the validator is built all the same
  (`DisabledIsSecure`, `DisabledSetsAd`); on an empty answer (`UnsignedNxdomainIsSecure`); and on
  signatures that come without their records (`LoneSignatureIsSecure`). `SecureIsSignedIff` is the exact
  condition.
- `internal/dnssec/validator.go:205-208` has a co-resident DNSKEY trusted by the chain walk or the anchors;
  no walk is made for it, and the answer it signs is secure on its own word (`WhereSecureRests`,
  `OwnKeyIsEnough`).
- `internal/cache/cache.go:96` calls the cache key unique; types without a mnemonic share one
  (`OtherTypeIsServed`, `OtherTypeAtAnInput`).
- `internal/server/server.go:345-349` says an oversized reply is replaced so that the prefix cannot wrap;
  this holds exactly when the echoed questions fit (`PrefixIsHonestIff`, `ManyQuestionsWrap`).
- `internal/cache/cache.go:332` gives a response whose TTLs are all a day or more a lifetime from 60
  seconds (`MinTtlMeans`).
- `internal/statistics/statistics.go:241` uses 0 for "unset", so a sample of 0 is lost (`MinIsExactIff`).

## Model

| member | source | states |
|---|---|---|
| `Signatures.VerifyRRsetWithKeySet` | internal/dnssec/chain.go:331-355 | the nested scan over signatures and keys equals the ordered list of attempts, stopping at the first success and keeping the last error |
| `Signatures.VerifiedIff` | internal/dnssec/chain.go:331-355 | an RRset verifies if and only if some in-period signature verifies under some candidate key |
| `Signatures.UnprocessableHasSource` | internal/dnssec/nsec3.go:71-75 | "unprocessable" names one in-period signature whose key could not be used, and then no signature verified |
| `Signatures.LastAttemptDecides` | internal/dnssec/chain.go:331-355 | a set is unprocessable if and only if nothing verifies and the last in-period signature with a candidate key could not be processed under its last such key |
| `LastAttempt.BadSignatureCanEndInsecure` | internal/dnssec/chain.go:209-329 | a walk from an anchored root through a trusted parent ends insecure when a wrong signature over the DS is followed by one whose key cannot be loaded, and fails hard in the other order |
| `Denial.ClosestEncloserMatch` | internal/dnssec/nsec3.go:181-194 | true if and only if the NSEC3 matches the child or an ancestor of it |
| `Denial.Nsec3ProvesNoDS` | internal/dnssec/nsec3.go:134-175 | true exactly when the first verified match shows a delegation without DS, or nothing matches, a verified opt-out record covers the child and a verified record matches a proper ancestor |
| `Denial.NsecProvesNoDS` | internal/dnssec/nsec3.go:198-214 | true exactly when the first verified NSEC at the child shows a delegation without DS |
| `Denial.VerifyDenialRecord` | internal/dnssec/nsec3.go:218-230 | a denial record counts exactly when a covering signature verifies it under the parent's keys |
| `Denial.ProvesNoDS` | internal/dnssec/nsec3.go:86-130 | the two proofs composed: NSEC counts only where there is no NSEC3 |
| `Denial.VerifierIsVouched` | internal/dnssec/nsec3.go:218-230 | the per-record check means that a parent key vouches for the record |
| `Denial.DenialRestsOnParentKeys` | internal/dnssec/nsec3.go:86-194 | every accepted denial rests on a record the parent's keys vouch for, in one of three shapes; an opt-out encloser is a proper ancestor although the search also tries the child |
| `Denial.DenialIff` | internal/dnssec/nsec3.go:86-214 | an authority section denies the DS exactly when the first record a parent key vouches for at the child says NS without DS or SOA or, with NSEC3 only, none speaks for the child, a vouched opt-out record covers it and a vouched one matches a proper ancestor |
| `KeyCache.RRsetCache.Get` | internal/dnssec/chain.go:54-66 | returns an unexpired entry and drops an expired one; what that means over time is `KeyAge.LookupIsRecent` |
| `KeyCache.RRsetCache.Put` | internal/dnssec/chain.go:68-86 | stores a non-empty RRset with its TTL clamped between a minute and a day |
| `Chain.SplitRRSIGs` | internal/dnssec/chain.go:403-416 | separates records of one type from the signatures that cover it |
| `Chain.MinRRsetTTL` | internal/dnssec/chain.go:90-99 | the smallest TTL of the set |
| `Chain.EqualHexDigest` | internal/dnssec/chain.go:382-400 | digests compare equal up to case, and only with equal length |
| `Chain.VerifyKeyAgainstAnchors` | internal/dnssec/anchors.go:175-196 | true if and only if some anchor agrees in tag, algorithm and digest |
| `Chain.Validator.FetchRRset` | internal/dnssec/chain.go:106-154 | cache first, then one upstream question whose answer is cached unverified |
| `Chain.Validator.FetchDSResponse` | internal/dnssec/chain.go:157-194 | as above for DS, where only the answer of a reply is cached |
| `KeyAge.LookupIsRecent` | internal/dnssec/chain.go:54-66 | with a clock that does not go back, what a lookup returns was said by the upstream at most max(60, min(86400, its smallest TTL)) seconds before, and an entry older than that is a miss and is dropped |
| `KeyAge.KeysAreRecent` | internal/dnssec/chain.go:106-154 | after any walks, a key set is taken from the cache only within that life of its last answer; otherwise one question goes upstream |
| `KeyAge.DsIsRecent` | internal/dnssec/chain.go:157-194 | the same for DS sets |
| `KeyAge.FetchRemembers` | internal/dnssec/chain.go:106-154 | a question answered with records of the type leaves that answer in the cache for exactly its life |
| `KeyAge.DsIsRemembered` | internal/dnssec/chain.go:157-194 | the same for a positive DS answer |
| `KeyAge.FreshIsNotAskedAgain` | internal/dnssec/chain.go:54-66 | while that life lasts the set comes from the cache and nothing is sent, if nobody else touches the cache |
| `Chain.Validator.AuthenticatedDNSKEYs` | internal/dnssec/chain.go:209-329 | the recursive program equals `Walk`, in result and in effect on the shared key cache |
| `Trust.AnchoredKeysAre` | internal/dnssec/chain.go:230-247 | the root entry points are exactly the served keys that match an anchor |
| `Trust.RootEntriesAre` | internal/dnssec/anchors.go:175-196 | a served root key is an entry point exactly when some anchor has its tag, algorithm and, up to case, its digest |
| `Trust.EntryPointsAre` | internal/dnssec/chain.go:286-311 | a zone's entry points are exactly the served keys that some DS of the set names |
| `Trust.ZoneEntriesAre` | internal/dnssec/chain.go:286-311 | a served key is an entry point exactly when some DS of the set has its tag, algorithm and, up to case, its digest |
| `Trust.WalkIsSound` | internal/dnssec/chain.go:209-329 | for any upstream, clock, interference and cache contents, returned keys hang on a chain from an anchored root key in which every DS set is signed by the parent's keys and every DNSKEY set by a named key of its own |
| `Trust.InsecureIsNeverFree` | internal/dnssec/chain.go:260-318 | "insecure" needs, at the zone or an ancestor, an authenticated denial of DS under trusted parent keys or a signing key that cannot be processed |
| `Trust.WalkIsBounded` | internal/dnssec/chain.go:196-214 | at most 2n+1 fetches for n labels, at most 50 in all, and success only from at most 24 labels |
| `Transparency.WalkIsTransparent` | internal/dnssec/chain.go:106-194 | over a coherent cache the walk returns what the walk without a cache returns, and leaves the cache coherent |
| `Transparency.CacheIsTransparent` | internal/dnssec/chain.go:54-86 | whatever was validated before, a walk gives the verdict and keys it would give with no cache, though a cached DS reply has lost its authority section and response code |
| `Transparency.KeysIffServed` | internal/dnssec/chain.go:209-329 | against a consistent upstream, keys are returned if and only if it serves a complete chain and the zone is at most 24 labels deep |
| `Completeness.InsecureIffServed` | internal/dnssec/chain.go:209-329 | against a consistent upstream the walk ends insecure if and only if the chain is served down to a delegation whose DS is denied or whose signing key cannot be processed, within the depth limit |
| `Zones.ParentIs` | internal/dnssec/chain.go:358-368 | the parent of a zone is what follows its first dot, or the root |
| `Validation.BuildRRsets` | internal/dnssec/validator.go:222-233 | groups the answer by owner and type, signatures apart, order kept |
| `Validation.FindDNSKEY` | internal/dnssec/validator.go:240-254 | the first key of the message that agrees in tag, algorithm and signer |
| `Validation.AllCovered` | internal/dnssec/validator.go:190-218 | true if and only if every record other than DNSKEY and DS lies in a validated RRset |
| `Validation.ValidateResponse` | internal/dnssec/validator.go:63-218 | the program computes the specified verdict and key-cache effect |
| `Completeness.StepIs` | internal/dnssec/validator.go:97-188 | each outcome of one signature with its exact cause; no matching key if and only if the message brings none and no walked key agrees in tag and algorithm; the key that decides is the first brought, else the first walked one that agrees |
| `Completeness.VerdictIs` | internal/dnssec/validator.go:63-218 | in any world the verdict is that of the first signature that stops the scan; without one, secure exactly when there is a signature and every record but DNSKEY and DS has one |
| `Completeness.SecureIff` | internal/dnssec/validator.go:63-218 | against a consistent upstream an answer is secure if and only if validation is off, it is empty, or it is signed, every signature is in period and verifies its records (if present) under the key that decides, anchored if that is a root key-signing key, and every record but DNSKEY and DS has one |
| `Validation.SecureMeans` | internal/dnssec/validator.go:63-218 | a secure non-empty answer: every signature was in period and every record other than DNSKEY and DS lies in an RRset verified under a key of the message or of a chain of trust |
| `Validation.SecureIsSignedIff` | internal/dnssec/validator.go:63-218 | behind a secure verdict the validator has verified something if and only if it is switched on and some signature of the answer comes with the records it covers; what it verified is signed |
| `Validation.DisabledIsSecure` | internal/dnssec/validator.go:64-66 | switched off, the validator calls every message secure and looks at none |
| `Validation.WhereSecureRests` | internal/dnssec/validator.go:128-188 | each covering signature of a secure answer was verified under a chain of trust exactly where the message brings no key of the signer, and otherwise under that key with no walk |
| `Validation.OwnKeyIsEnough` | internal/dnssec/validator.go:128-188 | an answer that brings its own key along is secure without any upstream being asked |
| `Validation.UnsignedNxdomainIsSecure` | internal/dnssec/validator.go:68-70 | an NXDOMAIN with no signature is secure |
| `Validation.LoneSignatureIsSecure` | internal/dnssec/validator.go:63-218 | an answer that is one in-period signature and nothing else is secure |
| `Validation.InsecureMeans` | internal/dnssec/validator.go:63-218 | an insecure verdict has a cause: no signatures, a justified unanchored signer, or a record no signature covers |
| `DoqPool.Resolver.GetConnection` | internal/resolver/doq.go:304-333 | reuses within the idle limit, otherwise closes and dials |
| `DoqPool.Resolver.RecycleConn` | internal/resolver/doq.go:383-395 | unpools a connection only if it is the pooled one, and closes it |
| `DoqPool.Resolver.CloseConnection` | internal/resolver/doq.go:366-373 | closes and empties the pool |
| `DoqPool.RunIsSafe` | internal/resolver/doq.go:104-333 | in every interleaving the pooled connection is not closed, every dialed connection is pooled, closed or about to be closed, and no query holds one it gave up on; every reply returned matches its question and is usable |
| `DoqOutcomes.FinishedMeans` | internal/resolver/doq.go:104-275 | in every run a finished query returns a reply if and only if an exchange of its own received it, matching and usable, and an error if and only if packing or a dial failed, two opens of one attempt failed or two exchanges failed |
| `DoqOutcomes.LastUsedIs` | internal/resolver/doq.go:270-333 | the pool's time of last use is that of the latest dial or good exchange of the run |
| `DoqOutcomes.ConnectionIs` | internal/resolver/doq.go:304-333 | in every run a query gets the pooled connection if that was used less than 20 seconds ago, otherwise a new one if the dial succeeds |
| `DoqPool.RecycleIsScoped` | internal/resolver/doq.go:383-395 | recycling one connection neither unpools nor closes another |
| `DoqPool.FailedIsNeverReused` | internal/resolver/doq.go:104-275 | a connection that failed for a query is never used by it again, whatever others do |
| `DoqPool.StepsOverARun` | internal/resolver/doq.go:104-275 | in every run a query takes at most 21 steps: one reopen per attempt and one retry |
| `DoqPool.RetryCanReuseASibling` | internal/resolver/doq.go:129-130 | a run in which the retry gets a connection dialed before the failure |
| `DoqPool.RetryIsFreshIff` | internal/resolver/doq.go:304-333 | in every run, the connection a second attempt gets was dialed after the failure if and only if nothing was pooled, the pooled one was idle too long, or it was itself dialed after the failure |
| `DoqPool.FailureIsMarked` | internal/resolver/doq.go:104-136 | the mark that statement uses is the number of connections dialed when the query's exchange failed |
| `Edns.FilterInPlace` | internal/server/server.go:376-391 | filtering into the same backing array equals the order-preserving filter |
| `Edns.EnsureResponseEDNS` | internal/server/server.go:310-343 | the in-place edit equals `Normalized` |
| `Edns.NormalizedMeans` | internal/server/server.go:310-343 | an OPT exactly if the client sent one, with its DO bit; DNSSEC records only on request; every other record of each section kept in its place, header and question unchanged |
| `ResponseCache.KeysEqualIff` | internal/cache/cache.go:101-108 | keys are equal if and only if name, mnemonics and DO bit are, although names may contain the separator |
| `ResponseCache.KeyIdentifies` | internal/cache/cache.go:101-108 | for registered types and classes a key identifies the question; unregistered types share keys |
| `ResponseCache.ExtractMinTTL` | internal/cache/cache.go:300-339 | the three scanning loops compute `MinTtlOf` |
| `ResponseCache.MinTtlMeans` | internal/cache/cache.go:300-339 | the smallest TTL over all records but OPT, or 60 when none is below a day |
| `ResponseCache.LifetimeIsBounded` | internal/cache/cache.go:229-285 | positive lifetimes respect the ceiling and, beyond the floor, the shortest TTL; negative ones the SOA and their own ceiling |
| `ResponseCache.LifetimeIs` | internal/cache/cache.go:229-285 | the lifetime in seconds from the records: positive, the smallest TTL raised to the floor and cut at the ceiling; negative, the TTL of the first SOA of the authority section cut at its own ceiling, and none without one |
| `ResponseCache.PutThenGet` | internal/cache/cache.go:123-296 | a reply put is hit, by every query with the same key, exactly until its lifetime ends, and found stale exactly for the stale window after |
| `ResponseCache.NotPut` | internal/cache/cache.go:229-285 | a cache switched off, no question, a reply to another question or to several, or no lifetime: nothing changes |
| `ResponseCache.PutKeepsOthers` | internal/cache/cache.go:286-296 | all other entries stay, except that a new key in a full cache costs one with the earliest expiry |
| `ResponseCache.DefaultsMean` | internal/cache/cache.go:71-94 | sensible settings are kept, the others become 4096 entries, no floor and a ceiling of a day |
| `ResponseCache.WindowsAreAdjacent` | internal/cache/cache.go:123-192 | the fresh and stale windows are disjoint and leave no gap |
| `ResponseCache.Cache.Get` | internal/cache/cache.go:123-154 | returns a fresh copy of an unexpired entry; deletes an expired one only without serve-stale |
| `ResponseCache.Cache.GetStale` | internal/cache/cache.go:167-192 | returns a fresh copy of an entry in the stale window |
| `ResponseCache.Cache.EvictOldest` | internal/cache/cache.go:343-361 | removes one entry with the earliest expiry |
| `ResponseCache.Cache.Put` | internal/cache/cache.go:229-296 | stores a private copy under the key with its lifetime, evicting only for a new key in a full cache; otherwise changes nothing |
| `CacheHistory.PutIsStore` | internal/cache/cache.go:229-296 | each `Put` is one operation of the history model |
| `CacheHistory.RefinesTimedMap` | internal/cache/cache.go:123-361 | in every history the size bound holds and each entry is what an unbounded timed map remembers |
| `CacheHistory.HitIsLatestPut` | internal/cache/cache.go:101-154 | a hit is the latest `Put` for the same name, DO bit and mnemonics of type and class, which for registered ones is the same question |
| `SharedKeys.OtherTypeIsServed` | internal/cache/cache.go:96-108 | whenever two questions share a key, a run serves the second query the stored reply to the first, question and all |
| `SharedKeys.OtherTypeAtAnInput` | internal/cache/cache.go:96-108 | such a run for two private-use types |
| `Lists.MatchSuffixes` | internal/blocklist/blocklist.go:46-75 | the label-suffix loop decides "equal to, or below, an entry" |
| `Lists.Blocklist.IsBlocked` | internal/blocklist/blocklist.go:46-75 | blocked if and only if enabled and the name is matched |
| `Lists.Blocklist.LoadFile` | internal/blocklist/blocklist.go:94-135 | merges a parsed file into the sets, or leaves them |
| `Lists.Blocklist.ReplaceFromFiles` | internal/blocklist/blocklist.go:211-243 | swaps in what the readable files hold and keeps entries clean |
| `ListFiles.ReloadMeans` | internal/blocklist/blocklist.go:139-243 | the sets hold exactly the hosts the lines of the readable files list, hosts-format and one-per-line alike |
| `ListFiles.BlockedIff` | internal/blocklist/blocklist.go:46-75 | a name is matched if and only if a listed entry is that name, a parent of it, or a wildcard above it |
| `ListFiles.HostIff` | internal/blocklist/blocklist.go:268-300 | the split into labels and the test of each accept exactly the strings of letters, digits, hyphens and dots (and underscores here) with dots only between labels, hyphens only inside them and no 64 characters in a row without a dot |
| `ListFiles.ListsIgnoreCase` | internal/blocklist/blocklist.go:46-75 | neither list tells apart names that differ in case or a final dot |
| `Lists.Allowlist.LoadFiles` | internal/allowlist/allowlist.go:53-84 | all or nothing: a failing file leaves the lists as they were |
| `ListFiles.ParseMeans` | internal/allowlist/allowlist.go:86-151 | a load succeeds exactly when every line of every file is good, and then holds exactly the entries the lines name, each in the set of its kind |
| `Lists.Allowlist.Allowed` | internal/allowlist/allowlist.go:209-242 | allowed if and only if exact, or matched by a bare or wildcard entry |
| `Lists.Allowlist.Entries` | internal/allowlist/allowlist.go:246-261 | returns exactly the entries of the three sets |
| `Lists.AllowedIffSomeEntry` | internal/allowlist/allowlist.go:209-242 | the allowed names are the union of what single entries allow |
| `Lists.ProbeIsExact` | internal/policy/policy.go:180-209 | the one probe name is blocked if and only if every name the entry allows is |
| `Lists.Shadowed` | internal/policy/policy.go:189-209 | reports exactly the entries all of whose names are blocked |
| `Policy.Policy.SetQTypes` | internal/policy/policy.go:61-72 | an empty list lifts the restriction |
| `Policy.Policy.Response` | internal/policy/policy.go:78-112 | allowlist, then type, then blocklist; `denied` rises exactly for the first two, `blocked` exactly for the third |
| `Policy.RefusalIff` | internal/policy/policy.go:78-112 | a query is refused if and only if it has a question and either there is an allowlist that lacks the name, or types that lack the type, or an enabled blocklist that matches the name; REFUSED for the first two, NXDOMAIN for the third, ID and question echoed |
| `Policy.Policy.Answer` | internal/policy/policy.go:123-150 | the first offending record replaces the whole reply by a refusal |
| `Policy.ScreenedIsAllowed` | internal/policy/policy.go:123-150 | a screened reply has only records the allowlist accepts by owner, type and alias target |
| `Policy.ScreenedIs` | internal/policy/policy.go:123-150 | a reply is passed as it is if every record is allowed, and otherwise replaced by REFUSED with ID and question of the query |
| `Serving.RunKeeps` | internal/server/server.go:462-614 | every step of every interleaving of UDP, TCP and DoT handlers, with reloads of either list between any two lock sections, keeps the joint invariant of cache, handlers and log |
| `Sources.EveryReplyHasItsSource` | internal/server/server.go:462-614 | in every run every reply sent is, as it looks on the wire, an answer on the spot to a query that its own check did not admit, or the entry that was fresh when the handler looked, or, after a miss, the upstream's reply, a stale entry or SERVFAIL, or REFUSED for a record of the last two that the lists did not allow; no query is answered twice |
| `Guarantees.CacheHoldsOnlyGoodAnswers` | internal/server/server.go:653-668 | every reachable entry is NOERROR or NXDOMAIN, filed under its own question, from a reply the validator did not refuse, within the size bound |
| `Guarantees.PutAloneTakesServfail` | internal/cache/cache.go:229-296 | `Put` itself stores a SERVFAIL for any query |
| `Staleness.BogusStoresIff` | internal/server/server.go:405-431 | in every reachable state a handler with a bogus reply stores something if and only if it is Mode 1 and finds a stale entry, and then it stores that entry |
| `Staleness.StoredIsOwnOrRevived` | internal/server/server.go:576-585 | in every run what a handler stores is its own reply as validated or, exactly where that was refused, the stale entry found at that moment |
| `Staleness.AgeIsBounded` | internal/server/server.go:616-647 | in every run without such a revival, a cached or stale answer is the accepted reply of the handler that put it, no older than a lifetime (and the stale window) beyond the time to put it |
| `Staleness.StaleBecomesFresh` | internal/server/server.go:578-585 | from every reachable state where a bogus reply meets a stale entry for the same question, the entry is fresh again for a whole lifetime |
| `Staleness.StoredEverAgain` | internal/server/server.go:578-585 | for every n, and any validator that accepts one reply and refuses another, a run with its verdicts throughout puts the accepted reply n more times although it came only at time 0 |
| `Staleness.NoBoundOnAge` | internal/server/server.go:616-647 | past any time there is a run with honest verdicts and a fresh hit on a reply accepted at time 0 and never since |
| `Staleness.NoBoundAtAnInput` | internal/server/server.go:616-647 | such runs for one server and validator: an unsigned address is accepted, the same with an expired signature is bogus |
| `Guarantees.RefusedGoesNoFurther` | internal/server/server.go:495-520 | every cache lookup and upstream query belongs to a one-question query whose name and type the allowlist in force admitted when that was asked and whose name the blocklist in force admitted when, later, that was asked |
| `Guarantees.OneMomentAdmits` | internal/policy/policy.go:78-112 | unless the allowlist and then the blocklist is reloaded between its two checks, the rules of one moment admit a query that goes on |
| `Reloads.QuerySlipsIff` | internal/policy/policy.go:78-112 | for an order of reloads between the two checks: in all runs with all lists one moment admits the query, if and only if no allowlist reload precedes a blocklist reload |
| `Reloads.SlipsBetweenLists` | internal/policy/policy.go:87-96 | for every query and every other order, a run lets it through although every set of rules ever in force refuses it |
| `Reloads.ListsAtAnInput` | internal/policy/policy.go:87-96 | such a run for one name and two reloads |
| `Guarantees.RefusedForGood` | internal/policy/policy.go:78-112 | while the lists do not change, a query whose name or type they do not admit never reaches cache or upstream |
| `Guarantees.SentIsScreenedAndSourced` | internal/server/server.go:587-614 | every record sent, fresh, cached, stale or truncated, has an owner and alias target that each passed the allowlist in force when looked at, and comes from one reply the validator accepted; AD is set exactly on a secure verdict |
| `Guarantees.OneMomentScreens` | internal/policy/policy.go:123-150 | without a reload of the allowlist between two looks of the handler, the rules at any of its looks allow the whole answer |
| `Reloads.AnswerSlipsIff` | internal/policy/policy.go:123-150 | for an order of looks and reloads: in all runs with all lists one moment allows the whole answer sent, if and only if no allowlist reload has a look before and one after it |
| `Reloads.SlipsBetweenRecords` | internal/policy/policy.go:127-148 | for every other order, a run sends an answer that no set of rules ever in force allows |
| `Reloads.SlipsBetweenAliases` | internal/policy/policy.go:127-148 | so does a chain of two aliases whenever a reload trades one for the other |
| `Reloads.RecordsAtAnInput` | internal/policy/policy.go:127-148 | such a run for a chain of two aliases and one reload |
| `Guarantees.AdMeansAuthenticated` | internal/server/server.go:393-431 | a reply sent with AD, from upstream, cache or stale data, comes from one upstream reply judged secure; with the validator on its records (DNSKEY and DS apart) lie in RRsets verified under keys of that reply or a chain of trust, and anything was verified exactly if the validator is on and that reply had a signature with its records |
| `Guarantees.DisabledSetsAd` | internal/server/server.go:408-410 | with a validator that is present but switched off, every reply with an answer is sent with AD and nothing was verified |
| `Sources.CountersCount` | internal/server/server.go:520-560 | in every run the counters are what happened: arrivals, lookups that found a fresh entry, lookups that did not, and questions to the upstream |
| `Guarantees.CountersBalance` | internal/statistics/statistics.go:200-219 | at every moment total = four buckets + drops + in flight, and misses = upstream queries up to handlers between the two increments and cacheless Mode 2 queries |
| `Guarantees.AtRest` | internal/statistics/statistics.go:200-219 | with nothing in flight the buckets and drops add up to the total and misses equal upstream queries |
| `Guarantees.HitEqualsFresh` | internal/server/server.go:520-596 | in every reachable state a hit serves, under any rules, what the latest store under the key serves its own client, up to the transaction ID |
| `Replies.SenderSendsWhatItStored` | internal/server/server.go:576-614 | in every run a handler that stored a reply sends that reply, or a refusal after a look at a record not allowed at that moment |
| `Replies.HitEqualsSent` | internal/server/server.go:520-596 | a hit sends, up to the transaction ID, what the handler that stored the entry has sent, unless that was refused by the lists it met |
| `Server.Listener.UpstreamFailureResponse` | internal/server/server.go:625-647 | a renumbered stale copy, or SERVFAIL |
| `Server.Listener.CacheableResponse` | internal/server/server.go:653-668 | NOERROR with answers, or a negative answer when negative caching is on |
| `Server.Listener.ApplyDNSSEC` | internal/server/server.go:405-431 | the validator's verdict decides AD, no AD, or the failure reply |
| `Decisions.LocalIs` | internal/server/server.go:462-520 | a query goes on exactly when it has one question, is not for the discovery zone and the lists admit it; otherwise FORMERR, the discovery reply, REFUSED or NXDOMAIN |
| `Decisions.OutcomeIs` | internal/server/server.go:405-431 | the upstream's reply with AD exactly if secure; without a good reply the renumbered stale entry in Mode 1 if there is one, else SERVFAIL |
| `Decisions.OfferedIff` | internal/server/server.go:653-668 | which replies are put: Mode 1 NOERROR with answers, and negatives if negative caching is on; Mode 2 any NOERROR |
| `Decisions.UdpLimitIs` | internal/server/server.go:43-58 | 512 bytes without EDNS, else the size of the client's last OPT held between 512 and 1232 |
| `Decisions.WireRespects` | internal/server/server.go:310-343 | no DNSSEC record in an answer to a client that did not ask; on a stream a reply that fits loses nothing else |
| `Decisions.BucketIs` | internal/statistics/statistics.go:208-219 | exactly the bucket of the response code rises, and no other counter |
| `Server.Listener.HandleDNSQuery` | internal/server/server.go:462-614 | one datagram: reply, cache and counters as specified, with the cache untouched by the edits that follow `Put` |
| `Server.Listener.HandleTCPMessage` | internal/server/server.go:710-810 | one TCP message, likewise |
| `Server.Listener.HandleDoTMessage` | internal/upstream/dot.go:234-366 | one DoT message: discovery before policy, no stale answers, only NOERROR stored |
| `HandlerRuns.HandledIsARun` | internal/server/server.go:462-614 | a handler running alone does what the interleaved machine does for one query |
| `Framing.PrefixWraps` | internal/server/server.go:797-797 | the prefix announces the length modulo 65536, so exactly when it is at most 65535 |
| `Framing.RoundTripIff` | internal/server/server.go:684-707 | frames come back one for one with every byte consumed if and only if each message has 1 to 65535 bytes |
| `Framing.EncodeDecode` | internal/upstream/dot.go:195-223 | a stream read to a clean end is the encoding of what was read |
| `Framing.Conn.ReadMessages` | internal/server/server.go:675-707 | the read loop yields `Decode` of the bytes, however the network cuts them |
| `Framing.Conn.Exchange` | internal/resolver/dot.go:92-165 | the client refuses what the prefix cannot express, and accepts exactly the next message if it unpacks and has the query's ID |
| `Framing.PackStream` | internal/server/server.go:350-362 | packs the reply, or a SERVFAIL in place of one over 65535 bytes |
| `Decisions.CarriedIs` | internal/server/server.go:350-362 | a reply too long for the prefix becomes a SERVFAIL with ID and question of the query; every other goes out as it is |
| `Framing.PrefixIsHonestIff` | internal/server/server.go:350-362 | what is sent fits the prefix if and only if the reply or the echoed questions do |
| `Framing.OneQuestionAlwaysFits` | internal/server/server.go:350-362 | with one question it always fits |
| `Framing.ManyQuestionsWrap` | internal/server/server.go:439-448 | a FORMERR that echoes 9361 questions is sent with a prefix of 3 |
| `Fallback.FallbackResolver.Resolve` | internal/resolver/fallback.go:129-191 | the reply of the first upstream not skipped whose question matches; one error for each tried before it; no change for a malformed query; the fallback counter rises exactly when the winner is not the first |
| `Fallback.FallbackResolver.PerformHealthChecks` | internal/resolver/fallback.go:263-301 | exactly the DOWN upstreams are probed and recorded |
| `Fallback.HealthInvariant` | internal/resolver/fallback.go:204-248 | in every mix of concurrent queries, probes and phases: UP iff no errors, SLOW only below the threshold, count = errors since the last success |
| `Fallback.ErrorMarks` | internal/resolver/fallback.go:217-248 | in every run an error leaves the upstream DOWN during startup or once its errors since the last success reach the threshold, SLOW below it, no other upstream changed, and the query on to the next |
| `Fallback.SuccessMarks` | internal/resolver/fallback.go:204-215 | in every run a matching reply, or any message to a probe, leaves the upstream UP with no errors |
| `Fallback.AskedNext` | internal/resolver/fallback.go:149-158 | in every run a query skips exactly the upstreams DOWN, unless there is only one |
| `Dns.SameQuestionIff` | internal/resolver/fallback.go:36-44 | questions match exactly when type and class agree and the names do up to case and a final dot |
| `Fallback.AllDownIsFrozen` | internal/resolver/fallback.go:149-158 | with all of two or more upstreams DOWN and no query waiting, queries never change any health |
| `Fallback.FrozenIff` | internal/resolver/fallback.go:149-191 | in every reachable all-DOWN state queries are unable to change any health if and only if none is waiting for an upstream |
| `Fallback.AllDownWithAnAsker` | internal/resolver/fallback.go:129-191 | a run reaches all-DOWN with a query still waiting |
| `Fallback.FailedProbeCanRevive` | internal/resolver/fallback.go:230-247 | in every run a failing phase-two health check moves DOWN to SLOW if and only if the errors since the last success stay below the threshold |
| `Fallback.FailedProbeRevives` | internal/resolver/fallback.go:204-301 | a run in which an upstream that failed at startup is put back in use by a failing health check and asked by the next query |
| `Latency.QuiescentIsExact` | internal/statistics/statistics.go:237-262 | for every interleaving, at rest, total, count and maximum are those of the samples, and the minimum too when no sample is 0 |
| `Latency.MinIsExactIff` | internal/statistics/statistics.go:241-249 | the minimum is right under every schedule if and only if no sample is 0 or all are |
| `Latency.CasFailsIffOvertaken` | internal/statistics/statistics.go:241-261 | a compare-and-swap fails if and only if another call has updated the cell since the load |
| `Latency.RetriesAreBounded` | internal/statistics/statistics.go:241-261 | in every interleaving a call's failed compare-and-swaps on each cell are at most the number of other calls |
| `Latency.WinsAreBounded` | internal/statistics/statistics.go:241-261 | each call updates each cell at most once |

## Left out

- TLS, QUIC and HTTP plumbing, certificate handling and key pinning: foreign libraries and I/O.
- Cryptographic verification, DS digests, NSEC3 hashing, packing and truncation are parameters.
- Configuration, logging, statistics rendering and the averages of `TakeSnapshot`: single expressions or text.
- The records of the discovery zone: only its place before the policy in Mode 2 is modelled.
- The DoH and DoQ listeners: they repeat the DoT pipeline.
- Trust-anchor files: the anchor list is given.
- The DoT client's connection pool and its retry: only one exchange on a connection is modelled.
- Names with escapes or outside ASCII: names are plain text, and `Parent` cuts at the first dot.
- The key cache joins zone and type into one string; the model keys it by the pair.
- The order of `Entries`, and what scanners count as skipped lines.
- Cancellation and timeouts of contexts: a query that is given up counts as an upstream failure.
- Counters other than those in `Counters`: they take part in no stated law.
- Server.Listener.HandleDNSQuery: the shared parts of the three handlers are methods of their own; the source writes them out in each handler.
- Server.Listener.HandleTCPMessage: one message of the connection loop; reading the stream is `Framing.Conn.ReadMessages`.
- Server.Listener.HandleDoTMessage: one message of the connection loop, as above.
- Latency.QuiescentIsExact: negative samples, which a monotonic clock does not give.
