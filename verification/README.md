# DNSRivet in Dafny

DNSRivet is a local DNS proxy for macOS. It answers from a cache, forwards over legacy and encrypted upstreams, and
points the system's DNS settings at itself while it runs. This project models the parts of it whose correctness is not
visible in any one function, and proves what they promise.

`dafny verify dfyconfig.toml` checks everything. Modules follow the program's structure:

| file | modelled code |
|---|---|
| `Prelude.dfy`, `Names.dfy`, `Questions.dfy`, `Records.dfy`, `Ageing.dfy`, `QueryMeta.dfy`, `QueryOctets.dfy`, `CacheTtl.dfy`, `SoaTimers.dfy`, `Truncation.dfy` | the DNS wire helpers |
| `Cache.dfy`, `CacheClass.dfy`, `Recency.dfy`, `Misses.dfy` | the response cache: what a hit serves, and why a lookup misses |
| `Replies.dfy`, `Unsettled.dfy` | the reply path around the cache, and the one kind of response it may repeat wrongly |
| `Hedge.dfy`, `HedgeLoop.dfy`, `Budget.dfy`, `AnswerRuns.dfy`, `BlockedHedge.dfy` | ordered failover with hedging under one budget of attempts |
| `Channel.dfy`, `ChannelRuns.dfy` | the connection slot of an encrypted upstream |
| `Bootstrap.dfy` | addresses of upstream hosts |
| `OsDns.dfy` | taking over, guarding and restoring the system's DNS, alone |
| `Takeover.dfy`, `TakeoverSafety.dfy`, `TakeoverEscapes.dfy` | the same under every interleaving: the machine, when it is safe, and the runs in which it is not |
| `Commands.dfy`, `TakeoverAlone.dfy`, `TakeAlone.dfy`, `TickAlone.dfy` | what start, stop, restoration, takeover and watchdog cycle do in that machine when nobody disturbs them |
| `Cadence.dfy`, `Calendar.dfy` | the watchdog's flap detector, the log's date stamp |

Code that updates state is written as methods over arrays, maps and fields, each proved against a specification
function; the properties are proved of those functions. Concurrent parts are state machines with one event for each
resumption between two awaits (the runtime has a single thread, src/main.rs:122-125) or for each effect between two
points where a process may die. A theorem about "every run" quantifies over all finite sequences of enabled events.

What a specification function reads of a message, a clock or a record is also stated without it: names, questions,
records, keys, lifetimes and replies on octets, sleep and pauses on the readings of the clocks, steps of the machines
field by field. Those members end in `Octets` or `Exactly`.

Assumptions of the model:

- Time is a natural number and never runs backwards, except for the wall clock of `ConnectionSlot.Stamp`.
- What sockets, TLS, QUIC, lookups and system commands return is arbitrary. Backends hand over whole DNS headers, and
  `legacy::query` has matched a system reply to the query's ID. A lookup task does not panic.
- A failed `networksetup` or `launchctl` call has changed nothing, one in flight when its process dies has taken effect
  or not before the lock is taken again, and writing, creating or removing a file is all or nothing.
- Service names are unique, and a deleted service does not come back (one created later is another service). Any service
  may be renamed, and any name taken by another service, at any point.
- Nobody else writes or deletes DNSRivet's files, and file locks exclude each other.
- The 64-bit connection generation and the 32-bit strike counter do not wrap.
- `LruCache` is a capacity-bounded sequence in order of recency.

Where the code and its own comments differ, the model follows the code. A hedge blocked by the budget is described at
src/upstream/mod.rs:201-202 as retried when a pending attempt completes; the code retries it only when none is pending
any more (`Hedging.UnarmedWaitsForAll`), as the run `BlockedHedge.FreedPermitDoesNotRetry` shows.

Three promises hold under a condition only, and each condition is exact:

- A restoration or rollback that addresses services by name can go past a service whose name has been taken by another.
  The takeover is safe in exactly the runs in which no backup is dropped after that
  (`TakeoverRuns.EveryRunIsRecoverable`); it cannot happen while each line read or undone has its name held by the
  listed service or by nobody, and it does happen in the runs of `TakeoverEscapes`.
- A bounded cache forgets. A live, clean response is missed exactly when as many keys as there are slots came ahead of it
  (`CacheMisses.HitIffSimpleStoreHits`). Keys a failed lookup has emptied since do not count:
  `CacheMisses.ExpiredOthersMakeRoom` is a hit although as many others were used.
- A cached response whose question name points into the message ID changes with the requester's ID. Every requester is
  answered exactly when it does not (`UnsettledHits.HitsAnswerEveryIdIffSettled`, and for an input
  `UnsettledHits.UnsettledHitFails`).

## Model

| member | source | states |
|---|---|---|
| Names.WalkName | src/wire.rs:399-435 | the cursor loop returns the end and visits the labels of the specified walk, on every buffer, pointer cycles included |
| Names.WalkIsBoundedExpansion | src/wire.rs:399-435 | a walk succeeds with these labels and this end exactly when an expansion of section 4.1.4 of RFC 1035 exists with at most 128 jumps and 255 octets; a pointer to t has the octets 0xc0 + t / 256 and t % 256 |
| Names.WalkFitsBuffer | src/wire.rs:387-396 | the labels visited never overflow a caller's 255-octet buffer |
| Names.WalkEndIsInline | src/wire.rs:382-384 | the end of a name depends on its inline octets alone and lies inside the buffer after its start |
| Names.InlineEndIsLocal | src/wire.rs:382-384 | two buffers that agree on a name's inline octets agree on where it ends |
| Names.WalkReadsOnlyTouched | src/wire.rs:399-435 | changing octets a walk does not read changes neither its result nor what it reads |
| Names.WalkReadsExpansion | src/wire.rs:399-435 | a walk that succeeds reads the octets of its expansion and no others |
| Names.ClearedIdKeepsWalk | src/proxy/cache.rs:77-78 | clearing the message ID never breaks a walk, even one whose pointers reach into the ID |
| Names.ReadName | src/wire.rs:387-396 | the decoded name is the lower-cased concatenation of the labels walked |
| Names.MakeLowercase | src/wire.rs:387-396 | the in-place loop adds 32 to each octet from A to Z in the used part of the buffer and leaves everything else |
| Names.WalkIsFramed | src/wire.rs:399-435 | the labels of a walk are well framed: each length octet matches its label, the root ends the name and nothing else does |
| Names.CanonicalNamesDecideLabels | src/wire.rs:286-307 | equal folded names have label sequences that agree octet for octet but for the case of ASCII letters, and conversely: length octets never fold and framing is a prefix code (section 3 of RFC 4343) |
| Questions.QuestionsMatch | src/wire.rs:286-307 | the allocation-free comparison returns what comparing two decoded names and the QTYPE and QCLASS octets returns, failures included |
| Questions.SameQuestionIsAskAlike | src/wire.rs:286-307 | that result is true exactly when both names walk, their labels agree up to ASCII case and the four field octets are equal |
| Questions.AcceptedIffSameLabels | src/wire.rs:261-283 | a one-question response validates exactly when its QR bit is set, its opcode bits are the query's, QDCOUNT is 1 and it repeats the one question (section 4.2 of RFC 5452) |
| Questions.FindQuestionsEnd | src/wire.rs:349-358 | the loop finds the specified end of the question section or fails with it |
| Questions.SkipQuestionsBounds | src/wire.rs:349-358 | the end of the questions lies inside the message and after the header |
| Questions.QuestionsEndExactly | src/wire.rs:349-358 | the section ends at a given offset exactly when as many consecutive questions as QDCOUNT says, each a name and four octets, fit and end there |
| Questions.FlagsAreRead | src/wire.rs:261-273 | QR, opcode, TC and RCODE are the fields from which the flag octets of section 4.1.1 of RFC 1035 are put together |
| Records.ParseIsInline | src/wire.rs:329-347 | a parsed record's fields and boundaries are those of a parse that follows no pointer |
| Records.InlineRRIsLocal | src/wire.rs:329-347 | the octets from a record's start to its end determine where it ends and what its fields are, whatever the rest of the buffer holds |
| Records.LayoutUnique | src/wire.rs:329-347 | a message has at most one sequence of so many records from a given offset |
| Records.RecordOctets | src/wire.rs:329-347 | type, class, TTL, RDLENGTH and boundaries of a record are those of its ten fixed octets, and it is read exactly when its RDATA fits |
| Records.AgeRecords | src/wire.rs:128-152 | the loop that parses the array it is rewriting computes the specified ageing, turn by turn |
| Records.AdjustTtlsInPlace | src/wire.rs:128-152 | the in-place method succeeds and leaves the bytes exactly as specified, also when it fails halfway |
| Records.IsAgedUnique | src/wire.rs:128-152 | a message, its records and an elapsed time determine the aged message octet for octet |
| Ageing.AdjustTtlsExact | src/wire.rs:128-152 | success reduces exactly the non-OPT TTLs (section 6.1.3 of RFC 6891), stopping at zero, changes no other octet and keeps every record's boundaries, type, class and RDATA |
| Ageing.AgeingComposes | src/wire.rs:128-152 | ageing by e1 and then e2 is ageing by e1 + e2, the 32-bit clamp included, whenever the calls succeed |
| Ageing.CleanMessageAges | src/wire.rs:128-152 | ageing cannot fail when no name's walk passes through a TTL that ages |
| Ageing.CleanStaysClean | src/wire.rs:128-152 | after such an ageing the message is again fully parsed and free of names through TTLs |
| QueryMetadata.ParseQueryMeta | src/wire.rs:34-91 | the method extracts the specified cache key and UDP size, or None for exactly the specified queries |
| QueryMetadata.FindUdpPayloadSize | src/wire.rs:95-124 | the method finds the clamped size of the first OPT record, 512 on every malformed path |
| QueryMetadata.SizesAgree | src/wire.rs:34-124 | for every query with cache metadata both ways of finding the UDP limit agree, within 512 and 4096 |
| QueryMetadata.EqualKeysValidateAlike | src/wire.rs:34-91 | two queries with one cache key get the same validation result, error for error, on every response |
| QueryOctets.MetadataExactly | src/wire.rs:34-91 | a query takes part in caching exactly when it is a QUERY with RD and one question, its records can be skipped, and nothing or one option-free, version-0 OPT follows them to the last octet, as ARCOUNT says |
| QueryOctets.MetadataOctets | src/wire.rs:34-91 | its key and UDP size, field by field, from the octets of the question, the flags and the last ten octets |
| QueryOctets.EqualKeysExactly | src/wire.rs:34-91 | two queries share a cache entry exactly when their names agree up to ASCII case, their QTYPE and QCLASS octets are equal, both or neither carry an OPT, and DO, AD and CD agree |
| QueryOctets.UdpSizeOctets | src/wire.rs:95-124 | the size granted to any query is the class of the first OPT that can be reached in its additional section, within 512 and 4096, or 512 |
| CacheTtls.ComputeCacheTtl | src/wire.rs:159-211 | the loop computes the specified lifetime of a response |
| CacheTtls.CacheTtlIsLongestSafe | src/wire.rs:159-211 | on every message u is at most the lifetime chosen exactly when the message is a whole successful response and u is safe: at least 1, at most a day, at most 600 s, every authority SOA's TTL and the field 16 octets after its RNAME when negative, else at most every answer and authority TTL (section 5 of RFC 2308) |
| CacheTtls.SoaMinimumExactly | src/wire.rs:368-380 | the field read is the fifth after MNAME and RNAME, and it is read exactly when the RDATA holds both names and all five |
| SoaTimers.TimersDoNotMatter | src/wire.rs:368-380 | two responses that differ only in SERIAL, REFRESH, RETRY or EXPIRE of authority SOAs get one lifetime, if no name reads those octets |
| CacheTtls.CacheableIsFullyParsed | src/wire.rs:159-211 | only fully parsed, untruncated NOERROR or NXDOMAIN responses get a lifetime, of 1 to 86400 s |
| Truncation.Message.TruncateTo | src/wire.rs:215-229 | the in-place truncation leaves the specified message |
| Truncation.TruncatedFits | src/wire.rs:215-229 | from the header size up a truncated message fits its limit |
| Truncation.TruncatedExactly | src/wire.rs:215-229 | an oversized message becomes header and questions with TC set and the later counts cleared, or, when they do not fit, the header alone without a question |
| Truncation.TruncationIsIdempotent | src/wire.rs:215-229 | truncating twice is truncating once, for every limit |
| Truncation.UncompressedQuestionIsShort | src/wire.rs:215-229 | an uncompressed question ends by offset 271, and its walk reads only its own octets |
| Truncation.TruncatedStillValidates | src/upstream/legacy.rs:48-54 | a validated one-question response still validates, with TC set, once truncated to any limit its question fits, if the question reads only its own octets |
| Truncation.ServfailAnswersItsQuery | src/proxy/mod.rs:347-354 | the echoed SERVFAIL validates against its own query, for any number of questions, and is never cacheable |
| Truncation.LocalRepliesExactly | src/proxy/mod.rs:347-365 | SERVFAIL and FORMERR, octet by octet: QR and RA set, opcode and RD kept, AA and TC clear |
| ResponseCache.RunTracks | src/proxy/cache.rs:33-87 | over every run each entry is its original aged by whole seconds, with aged_at + ttl still the insertion time plus the original lifetime, within capacity and with one slot for each key |
| ResponseCache.HitIsServedCopy | src/proxy/cache.rs:33-61 | every hit of every run is, byte for byte, the last response inserted under the key with the requester's ID and every non-OPT TTL reduced by the whole seconds since insertion, counted in nanoseconds, and is served only while those are fewer than its lifetime |
| ResponseCache.ServedCopyUnique | src/proxy/cache.rs:56-59 | that description leaves one possible reply |
| ResponseCache.PositiveHitsServeLiveTtls | src/proxy/cache.rs:41-55 | no hit on a positive answer serves a zero or saturated TTL in its answer or authority section |
| ResponseCache.EveryHitValidates | src/proxy/mod.rs:329-344 | if the last response inserted under the key validated against its own query, and its question reads neither ID nor TTLs, every hit validates against the requesting query, bears its ID, has QR set, TC clear and RCODE 0 or 3 |
| UnsettledHits.HitsAnswerEveryIdIffSettled | src/proxy/cache.rs:56-59 | among responses whose question reads no TTL, those that read no octet of the ID are exactly the ones whose hits answer every requester: any other fails the requester with ID 0x8080 |
| UnsettledHits.UnsettledHitFails | src/proxy/cache.rs:56-59 | a response that answered its own query, and a hit on it that does not answer the requester |
| CacheMisses.HitIffSimpleStoreHits | src/proxy/cache.rs:33-87 | over every run and for every capacity, if no name in the last response under its own key reads a TTL, a lookup hits exactly when a store of originals and insertion times has that response live and there were never, since its key was last used, as many other keys ahead of it as slots: eviction is the only other miss |
| CacheMisses.HitsExactly | src/proxy/cache.rs:33-87 | without that assumption a lookup hits exactly when moreover no lookup of the key has failed since and its buffer can still be aged |
| CacheMisses.MissNeedsOthers | src/proxy/cache.rs:70-87 | a live, clean response is missed only after at least as many distinct other keys as slots were inserted or hit since it was, and, while no lookup fails, exactly then |
| CacheMisses.ExpiredOthersMakeRoom | src/proxy/cache.rs:36-44 | a run of two slots and two other keys used since that still hits: an expired lookup emptied a slot |
| CacheMisses.RoomyCacheNeverEvicts | src/proxy/cache.rs:33-87 | with room for every key inserted a lookup hits exactly when its own clean response is live |
| Recency.HeldExactly | src/proxy/cache.rs:70-87 | the bounded list in order of recency holds a key, with exactly those others in front of it, when it was used, never crowded out and not emptied since |
| CacheObject.Cache.constructor | src/proxy/cache.rs:19-25 | a new cache is empty and holds at least one entry |
| CacheObject.Cache.GetInto | src/proxy/cache.rs:33-61 | the method over buffers aged in place returns, stores and copies what the specified lookup does, and a miss leaves the caller's message alone |
| CacheObject.Cache.CatchUpCell | src/proxy/cache.rs:46-55 | one buffer is aged by the elapsed whole seconds, keeping the fraction, and no other buffer changes |
| CacheObject.Cache.InsertResponse | src/proxy/cache.rs:70-87 | insertion keeps a private copy with a cleared ID, replacing or evicting as specified |
| Replies.EveryDatagramAnswers | src/proxy/mod.rs:220-232 | over every run of the cache, what a UDP client is sent for a one-question query is the hit, else the upstream's answer, else SERVFAIL, unchanged if it fits the size advertised and with TC if not; it fits, bears the client's ID and validates against its question, if the one source used does and its question survives the cut |
| Replies.FormerrIsWellFormed | src/proxy/mod.rs:359-365 | a QUERY with more than one question gets, whatever else there is, a header-only FORMERR with its ID and RD that is no multi-question message itself |
| Replies.UdpLimitBounds | src/proxy/mod.rs:226-230 | the limit applied is that of the query, cached metadata or not, between 512 and 4096 |
| HedgeLoop.Semaphore.TryAcquire | src/upstream/mod.rs:197-204 | a permit is taken exactly when one is free |
| HedgeLoop.Forwarding.RunToAwait | src/upstream/mod.rs:187-265 | the loop from its top to its next await updates next, hedge_at, the pending set and the semaphore as specified |
| HedgeLoop.Forwarding.Resume | src/upstream/mod.rs:229-278 | every resumption of the loop, with a finished attempt's permit back first, is the specified reaction |
| Hedging.ReactSound | src/upstream/mod.rs:187-279 | every reaction keeps: exactly the upstreams before next were started, an armed hedge has a successor with a deadline, an attempt without one is never spawned or raced, the answer is what a started attempt received, octet for octet, under the query's ID, and everything else was an error or a SERVFAIL; None only when all were started or no permit was free |
| Hedging.AnswerExactly | src/upstream/mod.rs:282-312 | an outcome is rejected exactly when it failed or the low four bits of its fourth octet are 2; any other is the answer, with its first two octets replaced by the query's |
| Hedging.ReactStarts | src/upstream/mod.rs:189-206 | an event starts at most one upstream, the next in configuration order, and only with a free permit |
| Hedging.ReactDescends | src/upstream/mod.rs:187-279 | a measure over upstreams not started, attempts pending and the armed hedge decreases at every event |
| Hedging.NeverStuck | src/upstream/mod.rs:252-265 | a loop that has not returned waits for something that can happen once attempts end |
| Hedging.UnarmedWaitsForAll | src/upstream/mod.rs:197-204 | after a hedge the budget blocked the next upstream starts exactly when the last pending attempt is joined and rejected, a permit is free and there is a next upstream |
| BlockedHedge.FreedPermitDoesNotRetry | src/upstream/mod.rs:197-204 | a run from the initial state: two attempts pending, the due hedge finds no permit, one attempt fails and its permit is free again, and the third upstream is still not started |
| Hedging.ReactOnTime | src/upstream/mod.rs:212-218 | with a free permit and no overdue hedge every reaction keeps the 300 ms schedule |
| AttemptBudget.EveryRun | src/upstream/mod.rs:159-280 | over every interleaving of queries free permits and live attempts (polled, spawned, detached losers, single upstream, system lookup) make up 512, and every answer is a reply under its query's ID and no SERVFAIL |
| AnswerRuns.EveryAnswerWasReceived | src/upstream/mod.rs:159-351 | in every run an answered query's answer is a reply one of its attempts received: same length, same octets after the ID, no SERVFAIL, the query's own ID |
| AttemptBudget.ArriveExactly | src/upstream/mod.rs:160-218 | an arriving query asks the only upstream, or polls the first of several with its hedge armed 300 ms ahead if both have deadlines, and is refused without a permit |
| AttemptBudget.SingleExactly | src/upstream/mod.rs:161-172 | a single upstream's reply is the answer unless rejected, when the system's servers are asked |
| AttemptBudget.UnboundedAttemptsRunAlone | src/upstream/mod.rs:212-218 | an attempt without a deadline never coexists with another of its query and is never left behind |
| AttemptBudget.GivesUpOnlyWhenSpent | src/upstream/mod.rs:189-204 | a query leaves the configured upstreams without an answer only when all were started and rejected, or no permit was free; in both cases nothing is pending, and it turns to the system servers captured last if there are any and a permit is free |
| AttemptBudget.HedgingEnds | src/upstream/mod.rs:175-280 | in every run a query has at most four loop events for each upstream, whatever other queries do |
| AttemptBudget.SomethingCanHappen | src/upstream/mod.rs:159-351 | a query that has not been answered always has an event enabled by an attempt ending |
| AttemptBudget.HedgedOnTime | src/upstream/mod.rs:212-218 | with deadlines everywhere, permits free and no scheduling delay an unanswered query has started upstream k once more than 300k ms have passed |
| AttemptBudget.SystemInv | src/upstream/mod.rs:329-350 | an acceptable system reply or the last rejection ends the query and returns its permit, any other outcome moves on to the next server under the same permit |
| AttemptBudget.SystemServersInOrder | src/upstream/mod.rs:329-350 | in every run a query holds a system permit exactly while it asks system servers, and those left are a non-empty suffix of the list it captured |
| AttemptBudget.ServersAreLastCaptured | src/upstream/mod.rs:151-153 | in every run the system servers a query can turn to are those captured last |
| AttemptBudget.CancelInv | src/upstream/mod.rs:159-173 | dropping a query at any point returns or hands on every permit it holds |
| ConnectionSlot.SlotObject.Store | src/upstream/encrypted.rs:114-121 | a new connection gets the next generation and a clean record |
| ConnectionSlot.SlotObject.DropIfSlept | src/upstream/encrypted.rs:125-128 | using the slot renews its stamp, and keeps the connection exactly when the wall clock ran at most 5 s further than the monotonic one, a clock set back counting as standing still |
| ConnectionSlot.SlotObject.Invalidate | src/upstream/encrypted.rs:132-139 | only the current generation with a live connection is cleared |
| ConnectionSlot.SlotObject.Backoff | src/upstream/encrypted.rs:141-146 | the cooldown is 2, 4, 8, 16, then 32 s after the failures in a row so far, and the counter saturates |
| ConnectionSlot.SlotObject.SendFailed | src/upstream/encrypted.rs:199-215 | a failed send clears its generation if current, and backs off only if it did and will not redial |
| ChannelRuns.RunInv | src/upstream/encrypted.rs:189-324 | over every interleaving of queries, dials and cancellations a live connection has no failures and no cooldown, each generation names one connection for ever, one dial runs at a time, and a generation that is over stays over |
| ChannelRuns.AcquireExactly | src/upstream/encrypted.rs:234-263 | a query reuses the connection exactly when it is live and the host has been awake since, else is refused exactly inside a cooldown without a connection, else dials |
| ChannelRuns.DialWorkedExactly | src/upstream/encrypted.rs:297-310 | a dial that worked stores its connection under the next generation with a clean record and is leased as new |
| ChannelRuns.DialFailedExactly | src/upstream/encrypted.rs:320-323 | a dial that failed costs one failure more and the pause that goes with it, counted from its end |
| ChannelRuns.RetriesExactly | src/upstream/encrypted.rs:193-229 | after a failed send a query acquires again exactly on a transport error of its first, reused lease with more than 250 ms left; a connection still current is dropped, with a longer pause if the query is over |
| ChannelRuns.StaleFailuresAreHarmless | src/upstream/encrypted.rs:132-139 | a failure from a superseded, invalidated or dropped generation leaves the slot unchanged, however much later it arrives |
| ChannelRuns.ChargedAtMostOnce | src/upstream/encrypted.rs:199-215 | each generation is charged at most one backoff for failed sends |
| ChannelRuns.SecondSendFollowsStaleLease | src/upstream/encrypted.rs:206-229 | a query sends at most twice, the second time only after a transport error on a reused lease |
| ChannelRuns.DialsAreSpaced | src/upstream/encrypted.rs:255-263 | no dial begins inside a cooldown, and each dial after n failed ones since the last store begins at least the first n pauses, 2, 4, 8, 16, 32, 32... seconds, after the first of them |
| ChannelRuns.DialFailedInv | src/upstream/encrypted.rs:320-323 | a failed dial pushes the next one a whole further pause away |
| ChannelRuns.SleepRenewalDials | src/upstream/encrypted.rs:238-247 | a sleep renewal that drops a live connection never leaves the channel cooling down: the query that noticed dials at once |
| ChannelRuns.ReusedOnlyAwake | src/upstream/encrypted.rs:248-254 | a reused lease is live, the one its generation names, and the clocks have not drifted by more than 5 s since it was last used |
| BootstrapSlot.SlotObject.MakePlan | src/upstream/bootstrap.rs:86-105 | the plan is as specified and drops an entry exactly when it is past its stale window |
| BootstrapSlot.SlotObject.Record | src/upstream/bootstrap.rs:107-142 | an outcome is stored, and its caller told, as specified |
| BootstrapTable.Table.Invalidate | src/upstream/bootstrap.rs:204-214 | every slot of the host, whichever families were asked for, ceases to be fresh and keeps its addresses; no other host is touched |
| BootstrapRuns.RunInv | src/upstream/bootstrap.rs:162-219 | over every interleaving with cancellations the slot remembers the last success until a day after it lapsed, and a lookup in flight owns the lock |
| BootstrapRuns.LookupsArePaced | src/upstream/bootstrap.rs:162-199 | at most one lookup is in flight, and after a failure recorded at f the next, finished or still in flight, begins no earlier than f + 30 s |
| BootstrapRuns.ResolveExactly | src/upstream/bootstrap.rs:86-199 | what a caller meets: addresses recorded last while they are fresh; within 30 s of a failure those or, a day after they lapsed, an error; else it begins a lookup, or while another one runs gets them stale or waits |
| BootstrapRuns.DoneIsDone | src/upstream/bootstrap.rs:162-199 | a caller that was answered or has gone is told nothing more |
| BootstrapRuns.AnswersAreHonest | src/upstream/bootstrap.rs:86-142 | addresses come from the last recorded success r with now at most r + ttl + 86400 s, even after invalidation; an error means there was none or it is past its stale window (compare section 5 of RFC 8767) |
| OsDns.MacDns.TakeOver | src/osdns/macos.rs:101-182 | success saves the exact list of every enabled service, points each at the proxy alone and sets the marker last; failure leaves DNS as it was or a backup that records what it was. If every system call works it succeeds exactly when some service is enabled and none of those lists the proxy; if one call fails, everything is rolled back unless it was the one on the marker |
| OsDns.MacDns.Rollback | src/osdns/macos.rs:696-709 | a rollback that reports success has put every changed service back, and it reports success if every call works |
| OsDns.MacDns.RestoreAt | src/osdns/macos.rs:245-299 | Ok means every saved service still listed has exactly its saved list, no listed service may use the proxy, and the backup is gone; any error leaves the backup unchanged. If every call works the only error is a service that may still use the proxy |
| OsDns.MacDns.Release | src/osdns/macos.rs:187-208 | the four combinations of backup and marker: restored, nothing to do, or refused with the backup kept; if every call works it is refused exactly when a service still uses the proxy |
| OsDns.MacDns.PrepareBackup | src/osdns/macos.rs:476-493 | the backup on disk names the new services and the address before any service is changed, or is untouched |
| OsDns.MacDns.AddNewServices | src/osdns/macos.rs:495-517 | the loop records exactly the unknown services, refusing any that may already use the proxy |
| OsDns.GrownExtends | src/osdns/macos.rs:495-517 | recorded entries are append-only with unique names, and none of the new ones shows a trace of the takeover |
| OsDns.MayDependExactly | src/osdns/macos.rs:301-315 | a list may depend on the proxy exactly when it names an address of the history, however spelled, or, without a history, a loopback address in a list other than the one saved for that service |
| OsDns.MacDns.WatchdogTick | src/osdns/macos.rs:370-423 | a cycle reports inactive, clean or reasserted exactly as the settings are, corrects exactly the drifted services, touches none outside the backup and changes nothing before its address is in the history; if every call works it fails only on an unknown service that already uses the proxy |
| OsDns.MacDns.TakeoverIntact | src/osdns/macos.rs:438-459 | true exactly when every saved, enabled or possibly dependent service points at the proxy alone and there is one; an answer is given whenever every call works |
| OsDns.RestoringUndoesTakeover | src/osdns/macos.rs:245-299 | restoring what a takeover saved gives back exactly the settings it found |
| TakeoverRuns.EveryRunIsRecoverable | src/osdns/macos.rs:101-208 | under every interleaving of start, stop, ticks with any address, crashes between effects, renames and external rewrites: a service that still carries a list DNSRivet wrote has at every point a backup whose history names that address and a loaded job, and the marker never outlives the backup, exactly when no backup is dropped over a service the check before went past; so in particular when every line read or undone has its name held by its service or by nobody |
| TakeoverRuns.SafeExactlyWithoutEscape | src/osdns/macos.rs:101-299 | the same equivalence from every state that keeps the invariant |
| TakeoverRuns.HeldLinesNeverEscape | src/osdns/macos.rs:271-289 | renames and arrivals that leave the lines still to be read or undone to their services never lead to such a drop |
| TakeoverRuns.PassingByEscapes | src/osdns/macos.rs:271-299 | conversely, going past a service that carries our list under another name, with no later rewrite or removal of it, ends in an unsafe drop if it ends in a drop |
| TakeoverRuns.TakeStepInv | src/osdns/macos.rs:101-182 | every effect of a takeover and its rollback keeps that |
| TakeoverRuns.ReleaseStepInv | src/osdns/macos.rs:187-299 | every effect of a restoration keeps that: the backup goes only when no service carries our list, unless one was passed by |
| TakeoverRuns.TickStepInv | src/osdns/macos.rs:370-423 | every effect of a watchdog cycle keeps that |
| TakeoverRuns.CommandStepInv | src/service/mod.rs:19-138 | start loads the job before it takes over, and every way of unloading it comes when nothing is left to restore |
| TakeoverRuns.UnloadInv | src/service/mod.rs:96-138 | cleaning up a failed start and finishing a stop never strand a service on a stopped proxy |
| CommandRuns.StartReachesTakeover | src/service/mod.rs:19-77 | a start that finds no job, backup or marker and whose steps work loads the job, has it answer the probe, and enters the takeover |
| CommandRuns.StartIsRefused | src/service/mod.rs:25-42 | with a job, a backup or a marker a start is refused and changes nothing |
| CommandRuns.FailedTakeoverKeepsServing | src/service/mod.rs:79-90 | after a failed takeover the service is left running exactly while there is a backup to restore, and unloaded otherwise |
| CommandRuns.FailedStartLeavesNothing | src/service/mod.rs:65-77 | a job that does not answer its probe is unloaded again |
| CommandRuns.StopReachesRestoration | src/osdns/macos.rs:187-208 | stop removes the marker and restores when there is a backup, looks for stranded services when there is only a marker, and has nothing to do otherwise |
| CommandRuns.StopUnloadsLast | src/service/mod.rs:123-138 | the job is unloaded after a successful release and not before, and stays if unloading fails |
| TakeoverRuns.CleanLine | src/osdns/macos.rs:271-289 | a line read clean is not ours or its name went past its service, so what is ours is among the lines still to be read and those passed by |
| TakeoverRuns.BackupIsAppendOnly | src/osdns/macos.rs:476-517 | while the backup lives no entry and no address in it is rewritten or removed, over any part of a run |
| TakeoverEscapes.VerificationEscapes | src/osdns/macos.rs:271-299 | a run from an untouched machine in which a service renamed during a stop is passed by, and stays on our list after the backup is gone |
| TakeoverEscapes.RollbackEscapes | src/osdns/macos.rs:696-709 | the same through a rollback: two services trade names between the failed write and its undoing |
| TakeoverAlone.AloneAsRestoreAt | src/osdns/macos.rs:245-299 | with nobody else acting, the effects of a restoration from the first to the last have the outcome promised by `OsDns.MacDns.RestoreAt`, and if every call works the backup goes exactly when no service may still use the proxy |
| TakeAlone.AloneAsTakeOver | src/osdns/macos.rs:101-182 | with nobody else acting, the effects of a takeover have the outcome promised by `OsDns.MacDns.TakeOver`: if no call fails it succeeds exactly when it can, and after one failure everything is rolled back unless it was the one on the marker |
| TickAlone.AloneAsWatchdogTick | src/osdns/macos.rs:370-423 | with nobody else acting, a watchdog cycle only points saved services at the proxy, and if every call works leaves every saved one there and every enabled one saved, or changes nothing because an unknown one already uses the proxy |
| WatchdogCadence.Watchdog.OnTick | src/proxy/mod.rs:106-189 | the counters, the mode and the interval are at every tick the stated summary of the whole outcome history; errors and idle ticks change nothing |
| WatchdogCadence.SlowModeTurns | src/proxy/mod.rs:106-189 | slow mode begins exactly at the third reassert of a chain with fewer than three clean ticks between neighbours, and ends exactly at the next clean tick |
| Calendar.CivilInvertsCount | src/logger.rs:88-98 | every date of the proleptic Gregorian calendar is what the code makes of its day number |
| Calendar.CountInvertsCivil | src/logger.rs:88-98 | every day number, negative ones under truncating division included, gives a valid date whose independent count is that number |
| Calendar.CivilIsTheCalendar | src/logger.rs:88-98 | day 0 is 1970-01-01 and each day is followed by the next date of the calendar |

## Left out

- EveryRunIsRecoverable: backups without an address history are excluded (DNSRivet no longer writes them; `OsDns.MacDns` handles them), and safety is promised of exactly the runs without escapes, because `TakeoverEscapes` has runs in which it fails.
- EveryHitValidates: requires a question that reads neither the ID nor a TTL, which every uncompressed question satisfies (`ResponseCache.UncompressedIsSettled`); `UnsettledHits` shows that the ID is a real obstacle. For a question that reads TTLs only this direction is proved: whether a later copy differs then depends on which octets of the TTL have changed.
- TruncatedStillValidates: requires a question that reads only its own octets, because the cut removes the rest and clears the counts; src/upstream/legacy.rs:50-53 validates again where that may matter.
- Sockets, TLS, QUIC and HTTP transports, Hickory and Tokio internals, and the fairness of wake-ups: each send, dial and lookup is an arbitrary outcome at an arbitrary time.
- `networksetup`, `scutil` and `launchctl` calls and the parsing of their text: only their effects and failures are modelled; so are the file system and its locks.
- Capturing and filtering fallback servers, the flags that only choose log messages, and error texts.
- The order of bootstrap servers and the loop over them: a lookup is one outcome with at least one address and a clamped TTL.
- A dial's candidate addresses and the self-address check: a dial, bootstrap included, succeeds or fails as a whole; that a sleep or a failed dial invalidates bootstrap addresses is not linked to `BootstrapRuns`.
- The difference between aborting a legacy loser and letting an encrypted one finish: either holds its permit until it ends.
- `restart_config_transaction`, binary and plist installation, configuration and command-line parsing: branch by branch checks.
- Overflow of the 64-bit day count in `civil_from_days`.
