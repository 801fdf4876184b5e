# Verified model of the Solid server's request path

This project models, in Dafny, the stateful machinery and the exact value logic that a request to
the Solid server passes through, and proves what that machinery promises.

* **Authentication and replay.** The verified-token cache (`TokenCache`), its use by the
  authentication context (`AuthContext`), every interleaving of concurrent requests through it
  (`AuthRuns`), when the cache is unobservable in them (`AuthTransparency`), how old a verdict a hit
  may rest on (`AuthStaleness`), the replay window over whole runs (`AuthReplay`), the proof rules of
  sections 4.3 and 11.1 of RFC 9449 (`DpopProof`), the distributed Redis store as a step system
  (`RedisReplay`), the refinement that joins the two (`SharedReplay`, `ReplayMarks`), several
  instances over one Redis (`Deployment`), and the sliding counter window of a session
  (`ReplayWindow`, section 3.4.3 of RFC 4303).
* **Rate limiting.** The token bucket over `real` (`TokenBucket`), the sharded limiter with idle
  collection and eviction (`RateLimiter`, `RateRuns`), why its non-interference cannot ask for less
  (`RateTightness`), and the choice of the client address (`ClientIp`).
* **Access control.** The recency-stamped table shared by both caches (`Recency`), operations on it
  that overlap (`TickRuns`), the parsed-ACL cache (`AclCache`), its lookups interleaved with writes
  (`AclRuns`), and WAC rule matching (`WacRules`).
* **Values.** Entity tags and preconditions (`EntityTags`; sections 8.8.3, 13.1.1 to 13.1.3 and
  13.2.2 of RFC 9110), HTTP dates and the calendar below them (`HttpDate`, `Calendar`; section
  5.6.7), UTF-8 (`Utf8`), the IRI guard (`IriGuard`), reserved paths and LDP targets
  (`ReservedPath`, `TargetShape`).

Objects the server updates in place are classes (`TokenCache.Cache`, `AuthContext.Context`,
`ReplayMarks.ReplayStore`, `AclCache.Shared`, `RateLimiter.Limiter`, `ReplayWindow.Window`); loops
are loops; concurrency is a step system whose steps are the atomic sections of the code.

`dafny verify dfyconfig.toml` checks the whole project.

## What is assumed

* Cryptography, URL normalisation, RDF parsing, IP-address parsing and the external token verifier
  are parameters: every theorem holds for every choice of them, except where a lemma names a
  condition. `AuthContext.Injective` treats SHA-256 as injective. `AuthContext.KeysUnchanged` says
  that a token which verified keeps its verdict until it expires (unchanged issuer keys), and
  `CertOnlyForBound` that the client certificate matters only to tokens bound to one. The exact
  condition for cache transparency (`AuthTransparency.Agreeing`) and bounded staleness need only the
  first; the last two are one way to meet that condition; replay spacing needs none.
* The verifier runs the same proof check as the cache and marks the jti last
  (src/auth_cache.rs:343-350 and 434-451).
* Clock readings are inputs. A lookup's reading may be any time older than the lookup, and one
  reading serves a request's lookup and, on a miss, its verification. The mark is made between the
  lookup and the decision; an insertion's reading is taken after the decision and no later than its
  stamp. `KeysUnchanged` reaches back as far as lookups lag behind their readings. Token-bucket times
  are `real`.
* The store is the composite one: every write puts its bytes under a key of their own, so bytes read
  through held metadata are those of the probed version (src/store/mod.rs:218-226). A missing blob
  is a store error there; the arm that maps a missing document to an absent ACL is modelled too.
* Redis applies commands one at a time, in an order that never runs against its clock, and refuses
  an expiry beyond the signed 64-bit range in milliseconds.

## What the proofs show about the code

* **Replay window.** The proof window is symmetric around `iat` and the jti is remembered for half
  of it, so a proof accepted at or before its own `iat` can be accepted again: at most three times
  in all (`AcceptedAtMostThrice`). "Accepted strictly after `iat`, hence once" is exact when the
  mark happens in the second the clock was read; if it may come `delay` milliseconds later, the
  condition is a mark at `1000 * (iat + 1) + delay` or later, and it is exact (`AgainIffEarly`).
  Three acceptances do happen (`ThreeAcceptances`).
* **Bounded staleness.** The lifetime of an entry counts from a second clock reading at insertion,
  not from the verification. Counted from the verification the bound is looser by that lag
  (`HitsWithinLag`), and it fails for a set of requests exactly when one is cached so late that
  another still finds its entry a whole lifetime after the verification (`BoundFailsIff`).
* **Old readings.** The clock is read before the cache lock is taken, so a hit can rest on a
  verification newer than its own reading, and let in a request whose token was not valid yet at
  that reading (`OldReadingShows`). Every hit of every run stands for a verification at its own
  reading exactly when each request that can hit what another one caches gets the same verdict there
  (`AgreementIsExact`); then the cache is unobservable (`InterleavingsAreUncached`).
* **ACL lookups.** A miss re-reads the document and answers for the version it read. That is the
  version it probed unless a write or deletion of the document falls in between
  (`OtherAnswerNeedsWrite`), and then it is the newer one (`RereadShows`); the read through held
  metadata answers for the probed version, or finds the document gone (`CacheIsUnobservable`). The
  condition for it is that an etag determines the parse. The etag is the length of the bytes and a
  64-bit FNV-1a hash of them (src/store/mod.rs:345-349), so it need not determine them, and it does
  not cover the media type; where two representations share an etag but parse differently the old
  parse is served (`UnfaithfulEtagsShow`).
* **Eviction order.** An insertion draws its stamp before it takes the lock. When insertions do not
  overlap other operations the caches are exact recency lists (`Recency`). When they do, a key can be
  evicted although fewer than `capacity` others were drawn after it (`DrawCountFails`), or placed
  after it (`PlaceCountFails`); the two together are always enough (`TickRuns.EvictionNeedsOthers`).
* **Token bucket.** `now` is read before the shard lock, so times can reach a bucket out of order,
  and time that went back is credited again (`BackwardTimeRefills`). The exact admission theorem
  therefore counts the credit of the times as they arrive; in order it is the elapsed time
  (`CreditInOrder`).
* **Idle collection** changes no decision, then or later, exactly when 600 seconds refill any bucket
  (`IdleIsFull`).
* **Eviction of buckets** does change decisions: once as many other sources as the cap have come in
  between, a source that spent its only token is admitted again, where a lone bucket refuses
  (`OthersInterfere`). `NonInterference` asks for one source fewer.
* **Malformed list members** change a verdict exactly when the header was the wildcard
  (`MalformedMember`), and a variant written in characters outside `etagc` never matches
  (`WriteWithVariant`, `ReadWithVariant`).
* **The two `If-None-Match` matchers** also agree on a list with `*` when one of its tags matches
  (`MatchersDiffer`).
* **TTL.** The conversion to milliseconds drops a fraction of a millisecond and saturates
  (src/redis_replay.rs:422-429). Exactly the TTLs of `RedisReplay.Kept` survive it; for any other
  whose expiry Redis takes twice in a row, two callers can be told New closer together than the TTL
  they asked for (`LostTtlShows`), and for longer ones no two callers are told New at all
  (`NewMarksFit`). The replay window survives (`WindowIsKept`).
* **Targets.** A comment says one leading and one trailing slash are dropped and interior `//` is
  rejected; the code drops all of them, so `//a//` is a target (`AcceptanceIsExact`).

## Model

| member | source | states |
|---|---|---|
| AuthContext.Context.ServeAll | src/auth.rs:192-358 | Cache transparency: a server with the cache answers every run of requests, and leaves the remembered jtis, exactly as one without it, with certificate binding on or off |
| AuthContext.Context.AuthenticateInner | src/auth.rs:192-304 | Hit or miss, the decision and the marks are the full ones on a token verdict that is fresh or a logged, still live verification of the same token |
| AuthContext.Context.FromCache | src/auth_cache.rs:239-295 | A hit decides like a full verification whose token verdict is the cached one; a miss touches no jti |
| AuthContext.Context.OnMiss | src/auth.rs:254-288 | A miss decides like the verifier, and logs a verification only if it is honest: no certificate-bound token is cached while certificate binding is on |
| AuthContext.Context.Verify | src/auth_cache.rs:343-350 | The verifier's contract: token verdict, then the proof check, the mark last |
| AuthContext.Context.Authenticate | src/auth.rs:172-185 | The binding check is applied to the same decision on hit and miss |
| AuthContext.BasisIsIrrelevant | src/auth.rs:239-290 | An allowed older verdict decides exactly as a verification now, given unchanged keys |
| AuthContext.Origin | src/auth_cache.rs:252-284 | A live entry is a logged verification of this very token |
| AuthContext.FinalizeMeaning | src/auth.rs:327-358 | The binding check only refuses, and refuses exactly the tokens with a certificate binding other than a lone, well-formed one for the presented certificate |
| AuthTransparency.InterleavingsAreUncached | src/auth.rs:192-304 | In every interleaving of lookups, decisions, stamps, insertions and the passing of time, answers and remembered jtis of agreeing requests are those of an uncached server taking the requests in the order of their decisions |
| AuthTransparency.AgreementIsExact | src/auth.rs:237-290 | Every hit of every run stands for a verification at its own reading if and only if each request that can hit what another one caches gets the same verdict at its own reading |
| AuthTransparency.CarriedIsUncached | src/auth_cache.rs:239-295 | A hit that stands for such a verification decides, and marks, as a full one |
| AuthTransparency.TrustedInterleavingsAreUncached | src/auth.rs:192-304 | With issuer keys unchanged as far back as lookups lag behind their readings, the cache is unobservable whatever the requests are |
| AuthTransparency.OldReadingShows | src/auth.rs:237-243 | If a token verifies for one request but not yet at the older reading of another, some run lets the other in on the cached verdict |
| AuthRuns.RunSound | src/auth_cache.rs:239-328 | In every reachable state each entry and each lookup in flight is backed by an honest verification that came before it |
| AuthStaleness.HitsAreBounded | src/auth_cache.rs:252-328 | A hit traces to a full verification of the same token before the lookup; its reading is before the expiry and within the lifetime counted from the insertion |
| AuthStaleness.HitsWithinLag | src/auth_cache.rs:252-328 | Bounded staleness over every run: a hit at `now` traces to a verification at `t0` with `now < t0 + lag + max_entry_ttl`, and `t0` no further ahead of `now` than the lookup lags; without lags, the plain bound |
| AuthStaleness.BoundFailsIff | src/auth.rs:281-283 | The plain bound fails in some run of given requests if and only if one is cached so late that another finds its entry live a whole lifetime after the verification; the failing run marks after its lookup and reads the insertion's clock after its decision |
| AuthStaleness.OneSecondLate | src/auth.rs:281-283 | An insertion reading one second after the verification's, and a second request a lifetime after the first, are enough |
| AuthStaleness.NoLagNoFailure | src/auth_cache.rs:258-284 | Without a lag the plain bound never fails |
| AuthStaleness.RunFrom | src/auth.rs:254-288 | Every cached verification is that of a request accepted on its own |
| AuthReplay.AcceptancesAreApart | src/auth_cache.rs:448-475 | Fail closed, two acceptances of one jti, in any mix of hits and misses, have marks at least the window apart |
| AuthReplay.AcceptedOnce | src/auth_cache.rs:394-410 | A proof accepted late enough after its `iat` is accepted once in the whole run |
| AuthReplay.AcceptedAtMostThrice | src/auth_cache.rs:394-410 | However early it was first accepted, a proof is accepted at most three times |
| AuthReplay.ThreeAcceptances | src/auth_cache.rs:394-410 | A proof presented at the start, the middle and the end of its window, each time looked up, marked and decided in the second it comes, is accepted all three times |
| AuthReplay.AgainIffEarly | src/auth_cache.rs:135-141 | While the token verifies, a proof can be accepted again if and only if its first mark came before the end of its `iat` second plus the delay |
| AuthReplay.SecondPresentation | src/auth_cache.rs:448-475 | A second presentation is accepted exactly when it is recent and a full window has passed since the first mark |
| AuthReplay.SecondMeansEarly | src/auth_cache.rs:394-410 | Two acceptances of one proof force the first mark to be early |
| AuthReplay.DecisionEffect | src/auth_cache.rs:448-475 | A decision marks at most one jti, and accepts on a proof only if the proof is recent and that mark admits it |
| AuthReplay.RunLater | src/auth_cache.rs:448-475 | Over a run no jti is forgotten earlier than it was going to be |
| DpopProof.CheckIsConjunction | src/auth_cache.rs:352-446 | A proof passes exactly when it shows method, URL, jti, recency, token hash and key; the order of the checks does not matter |
| ReplayMarks.ReplayStore.Mark | src/auth_cache.rs:105-120 | The store is an atomic check-and-set with a time to live that may fail before or after taking effect |
| TokenCache.Cache.constructor | src/auth_cache.rs:191-210 | Capacity and lifetime are clamped to at least one; the cache starts empty |
| TokenCache.Cache.Find | src/auth_cache.rs:252-284 | A live entry is bumped and returned, a stale one dropped; recency order and traceability are kept |
| TokenCache.FoundMeaning | src/auth_cache.rs:252-284 | A lookup returns exactly the live entry of its key and makes it the most recent, leaves every other entry alone, and drops only an entry that is dead at every later reading |
| TokenCache.Cache.Authenticate | src/auth_cache.rs:239-295 | A hit runs the whole proof check and marks last; a miss leaves the store alone |
| TokenCache.Cache.VerifyFreshProof | src/auth_cache.rs:352-478 | A refused proof consumes no jti; a good one is admitted exactly as the mark decides, fail-closed or open |
| TokenCache.Cache.Insert | src/auth_cache.rs:303-328 | Only a key-bound token with an expiry is stored, under its digest, evicting the least recent at capacity |
| SharedReplay.RunsAreCheckAndSet | src/redis_replay.rs:348-386 | In every run of the distributed store, marks read in log order are the atomic check-and-set that authentication relies on |
| SharedReplay.RemembersIsMarked | src/redis_replay.rs:348-386 | A jti is remembered exactly when an earlier New mark of it is within its time to live |
| SharedReplay.WindowIsKept | src/redis_replay.rs:422-429 | The replay window in milliseconds is not shortened |
| Deployment.AcceptancesAreApart | src/redis_replay.rs:4-11 | Over several instances with any caches and one Redis, two requests accepted on one jti, fail closed, have their SETs at least the replay window apart |
| Deployment.CachesAreUnobservable | src/auth.rs:192-304 | If every hit stands for a verification at its own reading, a run of several instances over Redis is, step for step, a run without caches: the same Redis states, the same ends of all requests |
| RedisReplay.AnswersAreCorrect | src/redis_replay.rs:224-417 | In every interleaving an answer that is no error is the one the sequential store gives at an instant between call and return |
| RedisReplay.NewMarksAreApart | src/redis_replay.rs:348-386 | Two calls told New for one jti took effect at least the TTL apart, in milliseconds |
| RedisReplay.NewMarksAreApartAsAsked | src/redis_replay.rs:348-386 | They are the requested TTL apart, for every TTL that survives the conversion |
| RedisReplay.LostTtlShows | src/redis_replay.rs:422-429 | For every other TTL that Redis takes twice in a row, a run tells two callers New closer together than they asked |
| RedisReplay.NewMarksFit | src/redis_replay.rs:348-386 | Two callers are told New for one jti and TTL only if Redis can take that TTL twice in a row |
| RedisReplay.OutcomesAreFinal | src/redis_replay.rs:249-264 | What a call returned is final: a timed-out or failed caller is never told New |
| RedisReplay.JobsAreAnsweredOnce | src/redis_replay.rs:231-240 | Queues stay within 1024, each job is answered at most once and never after being dropped |
| RedisReplay.ContainsChangesNothing | src/redis_replay.rs:395-417 | Only a mark that answers New, or an expiry, changes what Redis holds |
| RedisReplay.StepInv | src/redis_replay.rs:317-341 | Every step of callers, workers, Redis and the clock keeps the protocol invariant |
| RedisReplay.TtlIsKept | src/redis_replay.rs:422-429 | The conversion to milliseconds shortens a TTL exactly unless it is whole milliseconds that fit, or at most one |
| ReplayWindow.Window.CheckAndMark | src/pop/sk/window.rs:60-80 | A counter is accepted exactly when it was never shown before and is within 1024 of the highest shown |
| ReplayWindow.Shift | src/pop/sk/window.rs:94-113 | The in-place word shift moves bit `i` to bit `i + n` across all sixteen words |
| ReplayWindow.ShiftedBit | src/pop/sk/window.rs:94-113 | The two-word combination yields exactly the shifted bit |
| ReplayWindow.AdvancedTracks | src/pop/sk/window.rs:60-70 | After an advance the bitmap holds exactly the shown values of the new window |
| TokenBucket.ExactAdmission | src/rate_limit.rs:350-376 | All requests are admitted if and only if every stretch fits a full bucket plus its credit |
| TokenBucket.CreditInOrder | src/rate_limit.rs:361-376 | For times in order the credit is rate times elapsed time |
| TokenBucket.LevelIsLeast | src/rate_limit.rs:361-376 | While all is admitted, the level is the least of what any earlier full bucket would have left |
| TokenBucket.Conservation | src/rate_limit.rs:361-376 | Admissions of a window plus the level never exceed a full bucket plus the credit |
| TokenBucket.WindowBound | src/rate_limit.rs:361-376 | With rejections too, a window admits at most capacity plus rate times length |
| TokenBucket.BackwardTimeRefills | src/rate_limit.rs:481-530 | Exactly when a time `d` too early makes a drained bucket admit |
| RateRuns.NonInterference | src/rate_limit.rs:461-530 | If the requests reaching its shard come in order, a quiet source's decisions and bucket equal those of a lone, never-collected bucket fed only its own times |
| RateRuns.EvictionNeedsOthers | src/rate_limit.rs:481-530 | Evicting a source takes as many other sources of its shard as the cap since its last request |
| RateRuns.ShardsStayWithinCap | src/rate_limit.rs:174-184 | Every shard stays within its cap over every run |
| RateRuns.IdleIsFull | src/rate_limit.rs:168-172 | Collecting an idle bucket changes no decision, then or later, if and only if 600 times the rate reaches the capacity |
| RateRuns.LevelsShow | src/rate_limit.rs:361-376 | Two different levels at one instant are told apart by some later requests |
| RateRuns.OthersInBetween | src/rate_limit.rs:481-530 | With strictly increasing times, the others since a request are those that came in between |
| RateTightness.OthersInterfere | src/rate_limit.rs:481-530 | Once as many other sources as the cap came in between, a source that spent its only token is admitted, where a lone bucket refuses |
| RateLimiter.Limiter.Allow | src/rate_limit.rs:481-530 | One request: exempt sources pass, otherwise the source's shard sweeps, makes room and charges; all other shards are untouched |
| RateLimiter.FindColdest | src/rate_limit.rs:509-517 | The scan finds an entry last seen no later than any other |
| RateRuns.RoomKeepsOthers | src/rate_limit.rs:509-517 | Making room keeps every other source as it is, unless it is idle or the coldest of a full shard |
| RateLimiter.StepKeepsCap | src/rate_limit.rs:481-530 | A step keeps the shard within its cap |
| RateLimiter.ShardFor | src/rate_limit.rs:461-475 | The hash loop computes the shard index, below the shard count |
| ClientIp.ResolvedIsNthFromRight | src/rate_limit.rs:578-618 | The client is the N-th parseable entry from the right, or the peer |
| ClientIp.PrependingIsIgnored | src/rate_limit.rs:603-618 | Prepending anything changes nothing once N entries parse |
| ClientIp.JunkIsIgnored | src/rate_limit.rs:603-618 | Unparseable entries between others change nothing |
| ClientIp.JunkAtTheEndsIsIgnored | src/rate_limit.rs:603-618 | Nor do unparseable first or last entries |
| ClientIp.UntrustedIsIgnored | src/rate_limit.rs:578-586 | With no trusted hops the header is ignored |
| Recency.ListInvariant | src/acl_cache.rs:152-241 | After every history the list is duplicate-free, within capacity and ordered by last touch |
| Recency.PutRefines | src/acl_cache.rs:181-200 | An insertion that nothing comes between is an insertion into the recency list |
| Recency.BumpRefines | src/acl_cache.rs:152-173 | A hit moves the key to the back of the list |
| Recency.EvictOne | src/acl_cache.rs:233-241 | The scan removes exactly the least recently touched key |
| Recency.EvictionNeedsCapacity | src/auth_cache.rs:303-341 | When insertions do not overlap other operations, a key is dropped only after at least `capacity` other keys were touched since its last touch |
| Recency.TableWithinCapacity | src/auth_cache.rs:303-341 | The map never exceeds its capacity |
| TickRuns.EvictionNeedsOthers | src/auth_cache.rs:303-341 | In every interleaving of hits, removals, draws and commits, a key is evicted only after at least `capacity` other keys were drawn after its draw or placed after its placing |
| TickRuns.NewerEvictionNeedsDraws | src/auth_cache.rs:303-341 | Draws alone are enough when the incoming stamp is newer than the evicted one |
| TickRuns.DrawCountFails | src/auth_cache.rs:309-327 | Draws alone are not enough when two insertions overlap |
| TickRuns.PlaceCountFails | src/acl_cache.rs:185-199 | Placings alone are not enough when a stamp was old when it was placed |
| TickRuns.Reachable | src/acl_cache.rs:152-241 | In every interleaving stamps are pairwise distinct and the map stays within its capacity |
| TickRuns.AtomicIsPut | src/acl_cache.rs:181-200 | A draw directly followed by its commit is the insertion of the recency list |
| AclCache.Shared.constructor | src/acl_cache.rs:108-136 | Capacity 0 is the disabled sentinel; the lifetime is at least one |
| AclCache.Shared.Get | src/acl_cache.rs:152-173 | A usable entry is returned and bumped, an unusable one dropped |
| AclCache.LookedMeaning | src/acl_cache.rs:152-173 | A lookup returns exactly the parse stored under the current etag within its lifetime and makes it the most recent, leaves other documents alone, and drops only an entry of no further use for that etag |
| AclCache.Shared.Insert | src/acl_cache.rs:181-200 | Inserts under the etag read, evicting at capacity; a disabled cache stays empty |
| AclCache.Shared.Invalidate | src/acl_cache.rs:207-213 | Drops the entry of one document |
| AclRuns.CacheIsUnobservable | src/authz/wac.rs:617-650 | In every interleaving a finished lookup answers what an uncached one answers on a version current between its probe and its end; through held metadata, the probed version, or nothing because the document had gone |
| AclRuns.OtherAnswerNeedsWrite | src/authz/wac.rs:617-650 | A lookup answers for the version it probed unless a write or deletion of its document made a version after it and no later than the one read |
| AclRuns.RereadShows | src/authz/wac.rs:635-650 | A change between probe and fetch of a re-reading miss decides its answer: it is that of the probed version exactly when the parse is the same |
| AclRuns.UnfaithfulEtagsShow | src/acl_cache.rs:14-20 | If two representations share an etag but parse differently, some run serves the old parse |
| AclRuns.StepInv | src/authz/wac.rs:463-495 | Every step, a fetch that finds the document gone and a store error included, keeps each entry the parse of a version with its etag |
| WacRules.ModesFor | src/authz/acl.rs:85-111 | The nested loops compute the declared set of granted modes |
| WacRules.InModes | src/authz/acl.rs:85-111 | A mode is granted if and only if one authorization meets scope, agent, origin and mode |
| WacRules.OnlyTheSetMatters | src/authz/acl.rs:85-111 | Order and repetition of triples are irrelevant |
| WacRules.Monotone | src/authz/acl.rs:85-241 | Adding a triple other than `acl:origin` never removes a mode |
| WacRules.AllowedMeaning | src/authz/acl.rs:116-121 | A request is allowed exactly when one rule grants its mode, or it appends and one grants writing; growing the graph keeps it allowed |
| WacRules.AddingOrigin | src/authz/acl.rs:216-228 | What adding an origin restriction can change, and for whom |
| WacRules.PublicIncluded | src/authz/acl.rs:180-206 | An authenticated caller has every anonymous grant of the same origin |
| WacRules.UnionOfDisjoint | src/authz/acl.rs:85-154 | Graphs with disjoint subjects grant the union |
| WacRules.AuthorizationSubjects | src/authz/acl.rs:124-137 | The loop finds exactly the typed subjects, once each |
| WacRules.NamedObjects | src/authz/acl.rs:140-154 | The loop finds exactly the named objects of a predicate |
| WacRules.AppliesToResource | src/authz/acl.rs:158-176 | Scope: access-to for the resource, default for what inherits |
| WacRules.MatchesAgent | src/authz/acl.rs:180-206 | Agent: named, everyone, or any authenticated caller |
| WacRules.MatchesOrigin | src/authz/acl.rs:216-228 | Origin: unrestricted, absent, or listed |
| WacRules.GrantedModes | src/authz/acl.rs:232-241 | The loop finds exactly the modes a rule lists |
| EntityTags.ParseIsGrammar | src/ldp/conditional.rs:380-394 | The parser accepts exactly the grammar's renderings, with their contents and strength |
| EntityTags.IfMatchMeaning | src/ldp/conditional.rs:62-101 | `If-Match` passes exactly for the wildcard or a listed strong tag of the current state |
| EntityTags.IfNoneMatchMeaning | src/ldp/conditional.rs:62-101 | On writes `If-None-Match` fails exactly for the wildcard or a listed tag, of either strength, of the current state |
| EntityTags.ReadMeaning | src/ldp/conditional.rs:146-179 | On reads 304 exactly for the wildcard or the served tag listed in either strength, whatever `If-Modified-Since` says |
| EntityTags.BothHeaders | src/ldp/conditional.rs:62-101 | Both headers together pass exactly when each alone does |
| EntityTags.ModifiedSinceMeaning | src/ldp/conditional.rs:146-195 | 304 exactly when the resource is not newer than the written date |
| EntityTags.WriteWithVariant | src/ldp/conditional.rs:336-424 | A variant's tag passes a write exactly for the same state |
| EntityTags.ReadWithVariant | src/ldp/conditional.rs:359-436 | A read gives 304 exactly for the same state and the same variant |
| EntityTags.MalformedMember | src/ldp/conditional.rs:434-436 | A malformed member changes a verdict exactly when the header was the wildcard |
| EntityTags.HitsMeaning | src/identity.rs:461-468 | The second matcher hits exactly on a `*` member or a listed tag |
| EntityTags.MatchersDiffer | src/identity.rs:461-468 | The two matchers differ exactly when `*` stands in a longer list and no listed tag matches |
| HttpDate.ParseOfFormat | src/ldp/conditional.rs:213-247 | Every second of years 0000 to 9999 has a 29-character string that parses to it |
| HttpDate.FormatOfParse | src/ldp/conditional.rs:213-247 | Every accepted header is, trimmed, the one string of its second |
| HttpDate.ParseInjective | src/ldp/conditional.rs:213-247 | Accepted headers with equal results are equal after trimming |
| HttpDate.FourDigits | src/ldp/conditional.rs:260-269 | The accumulator loop reads exactly four digits as a decimal number |
| Calendar.DaysFromCivilCounts | src/ldp/conditional.rs:314-323 | The closed form equals the sum of month lengths since the epoch, for every year, negative ones included |
| Calendar.NextDayAddsOne | src/ldp/conditional.rs:272-323 | The next calendar day has the next number |
| Calendar.DaysOrder | src/ldp/conditional.rs:314-323 | Day numbers are ordered as dates |
| Calendar.DateOf | src/ldp/conditional.rs:314-323 | Every day number belongs to a valid date |
| Calendar.Epoch | src/ldp/conditional.rs:314-323 | 1970-01-01 is day 0 |
| Utf8.DecodeOfEncode | src/identity.rs:181-205 | Lossy decoding undoes encoding |
| IriGuard.Optimised | examples/iri_guard_microbench.rs:27-56 | The byte scan with fallback answers as the character-by-character reference on every string |
| ReservedPath.PercentDecodeLossy | src/identity.rs:181-205 | The index loop decodes every well-formed escape and keeps every other byte |
| ReservedPath.RefusalIsExact | src/identity.rs:166-205 | A path is refused exactly when it addresses the namespace, in any letter case and any mix of percent-encodings |
| ReservedPath.NamespaceHasNoTarget | src/ldp/target.rs:33-83 | No such path is ever a target |
| ReservedPath.TargetAvoidsIdentityKeys | src/identity.rs:153-156 | An accepted target never equals or extends the key of an identity document |
| TargetShape.AcceptanceIsExact | src/ldp/target.rs:33-83 | A path is a target exactly when it is clean segments between slashes and does not address the namespace; address and container flag follow from it |

## Left out

- Boot wiring, environment parsing, TLS, sockets, logging, metrics and response headers: no logic of
  their own worth a proof.
- The exact error statuses and messages of a refused authentication: only acceptance, the token and
  the marks are modelled.
- Requests without a `DPoP` token: the verifier's answer to them is a parameter.
- A clock tolerance so large that the window leaves the 64-bit range, and wrap-around of the tick
  counter.
- Rounding of floating-point bucket levels: `TokenBucket` uses `real`.
- Poisoned-lock recovery, and the random jitter of Retry-After.
- The cache tables of several instances side by side: `AuthRuns` interleaves the requests of one
  instance, and `Deployment` leaves the results of lookups open, for transparency up to their
  standing for a verification.
- ReplayWindow.Shift: 64-bit words are sets of bit positions, and shifts are defined by what they do
  to bits, not as machine instructions.
- The walk over ancestors that picks the effective ACL, the read plan, the store, PATCH and ranges:
  outside the caches and rules proved here.
- Overload shedding, body limits, seeding and the WAC-Allow header: small counters and tables.
- The handle grammar of identity documents: `TargetAvoidsIdentityKeys` holds for every handle
  string.
