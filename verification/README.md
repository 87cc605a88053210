# Verified model of the game backend

This project models the parts of the backend in which several game servers share one timed Redis key
space, and proves what those parts promise: the handoff of a player from the API to a game server, the
authoritative game loop, the two expiring indexes, the rate limiter, and the text formats.

## How it is built

`Redis` holds a clock and a map from key to value and expiry; a key is live until the clock reaches its
expiry, and every command or script is one atomic step. Keys are a datatype; `Keys` proves that their
rendering is injective, and `Redis.TextKeysFaithful` that the datatype therefore loses nothing.

Code that changes state step by step is written as classes: `Redis.Client`, the stores, `GameService`,
`World`, `Sessions`, `Simulation`, `JoinHandler`, `GameServer`. Every method is proved equal to a function
of the contents before it. The properties are lemmas about those functions and about runs of them; those about a single
operation say what it does in terms of what reads, moves or is taken afterwards:

- `Handoff` is the protocol over any number of servers, one Redis command per step, so that the clock, the
  API, the database and every other server act between two commands of one server. `Exclusion`,
  `Provenance`, `TokenLife`, `Coherence` and `Movement` hold over all its runs; `Lapse` has the runs in which a
  lease runs out, and `Renewal` those in which renewals keep it from doing so. `JoinPhases` shows that the join and disconnect handlers and the release loop of a shutdown are
  these steps in a row, and that a successful IssueJoinToken is the issue step; `LoopRuns` makes every turn of
  a server's loop such steps. `Admission` follows a token from the API's answer to the server it names.
- `Join` states what one handshake and one disconnect guarantee by themselves; `JoinHandler` is the heap code.
- `GameState` and `GameLoop` are the loop as a run of turns, with `LatestWins` as its refinement proof and
  `DrainOrder` on the order of a drain;
  `Arrivals` and `GameServer` are event dispatch, loop, registration and shutdown over the heap.
- `SessionStore`, `CharacterLocks`, `JoinTokens`, `GameServers` with `Registry`, and `RateLimit` with `RateLimitRuns`
  and `RateLimitKeys` each hold one store, its runs and its run properties.
- `Keys`, `Validate`, `Base64`, `Token`, `PasswordHash` and `Text` are the text formats. Base64 follows
  sections 3.2, 4 and 5 of RFC 4648, and the decoder is as lenient as Go's.

## Hypotheses

The code does not supply these; each appears where it is used, as a `requires` or a step condition.

- No session outlives its lock. The game server never calls RenewCharacterLock: the heartbeat at
  internal/game/server.go:319-339 renews only the registry entry, although docs/architecture/security.md:38
  says that the lock is renewed by heartbeat. The model follows the code. Exclusion is therefore proved for one
  lease, and `Coherence`, `Movement` and `LoopRuns` assume that no session's lease has run out;
  `Renewal.RenewalsSuffice` shows that calling the store's renew method in time would give exactly this.
- The character store returns a record under exactly its own ID (`KeyedByID`): the lock is taken under the
  token's character ID and released under the record's.
- Minted tokens and session IDs are fresh, and server IDs are distinct.
- A command that reports an error had no effect. Flags such as `up` say which calls get through.
- There is one clock and it never goes back. EXPIRE is exact.
- The runs of `Registry` take the three commands of a registration as separate steps that may fail; its
  agreement theorem for all live servers is for runs of whole registrations with leases of at most the index's
  serverTTL. The code accepts any positive lease; its wiring uses the same duration for both.
  `RegistryAgreementIff` says exactly when agreement holds otherwise.

Not every property one might expect of the code is true. Each of these has its exact condition and a run or
an input of the model on which it fails:

- One lock keeps a character from being played twice: `Exclusion.NextJoinIff`, `Lapse.SecondJoinAfterLease`.
- A drain does not depend on the map's order: `DrainOrder.OrderIrrelevantIff`, `Lapse.OrderMattersAfterLease`.
- Every entity has a session: `Join.JoinKeepsAllPlayedIff`, `Join.RejoinOrphans`.
- DeleteSession ends the session when it answers Ok: `SessionStore.DeleteUnbindsIff`, `SessionStore.DeletedSessionStays`.
- Bulk deletion touches nobody else: `SessionStore.BulkDeleteExactIff`, `SessionStore.ReusedIDLosesSession`.
- A listing shows every live server: `Registry.RegistryAgreementIff`, `Registry.StraddlingIsUnlisted`.
- A server with a live lease stays listed: `Registry.ListedThroughoutIff`, `Registry.LongLeaseIsUnlisted`.
- A rate-limit counter counts every call of its bucket: `RateLimitRuns.AnswerIsRankIff`, `RateLimitRuns.LateIncrementRestarts`.
- Old rate-limit counters go away: `RateLimit.StaleCounterIff`, `RateLimit.FailedExpireStays`.
- Printing a parsed password hash gives it back: `PasswordHash.PrintParsedIff`, `PasswordHash.ReorderedIsNotPrinted`.
- Every token passes ConsumeJoinToken's 64-byte identifier limit: `Token.TokenIsIdentifier` has the lengths that do.

## Model

| member | source | states |
|---|---|---|
| Keys.BuildSplits | internal/cache/keys.go:135-148 | A key built by the builder splits on ':' into exactly application, environment and its segments. |
| Keys.RenderInjective | internal/cache/keys.go:35-148 | Two rendered keys coincide only when application, environment, kind and identifiers all do. |
| Keys.RenderOkIff | internal/cache/keys.go:64-157 | Rendering a key succeeds exactly when its identifiers are valid segments; the kind never fails. |
| Keys.SessionPrefixKey | internal/cache/keys.go:70-82 | SessionPrefix() followed by an ID is the key Session(id) writes, and one renders exactly when the other does. |
| Keys.KeyTexts | internal/cache/keys.go:64-148 | The keys of tokens, sessions, users' sets, servers and locks are {app}:{env}:{kind}:{id} with these kinds, spelled out. |
| Redis.TextKeysFaithful | internal/cache/keys.go:135-148 | Writing and deleting under a rendered key in a store of text keys is writing and deleting under the typed key. |
| Redis.Client.SetIfAbsent | internal/store/redis/character_locks.go:92-97 | SET NX with a time to live: stores and answers true exactly when the key is not live. |
| Redis.Client.GetAndDelete | internal/store/redis/join_tokens.go:95-101 | GETDEL: answers the live value and leaves the key absent. |
| Redis.Client.Increment | internal/store/redis/rate_limit.go:59-62 | INCR: a counter that is not live restarts at 1 without expiry; a live one keeps its expiry. |
| Validate.AcceptedIsNormalized | internal/validate/validate.go:141-160 | Whatever identifier validation accepts, it accepts again unchanged, and it is not empty. |
| Text.TrimSpaceIff | internal/validate/validate.go:146-146 | Trimming a text gives the one text without white space at its ends that white space pads to it. |
| Validate.RequiredIDIff | internal/validate/validate.go:141-160 | A text is accepted as an identifier if and only if it is that identifier with white space around it, and the identifier has 1 to 64 bytes and no white space at its ends, colon, blank, tab or line break. |
| Validate.OptionalIsRequired | internal/validate/validate.go:105-111 | An optional server ID is the empty one for blank text and otherwise what the required check makes of it. |
| Validate.ServerAddressIff | internal/validate/validate.go:124-136 | A text is accepted as an address if and only if it is that address with white space around it, and the address has 1 to 255 bytes and no white space at its ends, tab or line break. |
| SessionStore.AcceptedIsSegment | internal/validate/validate.go:145-160 | Every accepted identifier is a valid key segment, so a store never fails on the key of a validated ID. |
| Base64.DecodeEncode | internal/auth/password_encode.go:49-62 | Decoding undoes unpadded base64 encoding for every byte string, in the standard and the URL alphabet. |
| Base64.EncodeDecodeIff | internal/auth/password_encode.go:64-110 | Encoding what was decoded gives the text back if and only if it has no line breaks and zero padding bits. |
| Base64.DigitsOfGroup | internal/auth/password_encode.go:49-62 | The digits of three bytes are their 24-bit number, most significant first; one or two bytes are padded with zero bits. |
| Base64.EncodesByGroups | internal/auth/password_encode.go:49-62 | The text of a byte string is that of its first three bytes followed by that of the rest. |
| Base64.TestVectors | internal/auth/password_encode.go:49-62 | Test vectors of RFC 4648, section 10, and one on which the two alphabets differ. |
| Token.NewOpaqueToken | internal/auth/token.go:20-31 | Refuses fewer than 16 bytes; fails when the random source does; otherwise returns the base64url text of exactly the bytes drawn. |
| Token.TokenIsIdentifier | internal/auth/token.go:20-31 | A token of at least 16 bytes is a valid key segment, and passes the stores' identifier check unchanged exactly up to 48 bytes. |
| Token.TokensInjective | internal/auth/token.go:20-31 | Different bytes give different tokens. |
| PasswordHash.ParseParamsByLoop | internal/auth/password_encode.go:126-162 | The loop that fills a map computes ParseParams for every input. |
| PasswordHash.ParamsAcceptedIff | internal/auth/password_encode.go:126-190 | A parameter string is accepted exactly when it is an ordering of one m, one t and one p field with in-range decimal values; the result is those values. |
| PasswordHash.OrderIrrelevant | internal/auth/password_encode.go:126-162 | Reordering the fields never changes the result, accepted or refused. |
| PasswordHash.CostsRoundTrip | internal/auth/password_encode.go:49-62 | Parsing the printed costs gives the costs back. |
| PasswordHash.HashRoundTrip | internal/auth/password_encode.go:49-110 | Parsing an encoded hash returns its costs, salt and hash, and accepts it exactly when costs and lengths are valid. |
| PasswordHash.PrintedParsesIff | internal/auth/password_encode.go:16-38 | A printed hash parses if and only if memory is at least 19456 KiB, iterations 2, parallelism 1, salt 16 and hash 32 bytes. |
| PasswordHash.VersionAcceptedIff | internal/auth/password_encode.go:112-124 | The version part is accepted exactly as v= and the number 19, with leading zeros and a plus sign allowed. |
| PasswordHash.PrintParsedIff | internal/auth/password_encode.go:49-190 | Printing a parsed hash gives the string back if and only if the string has version text v=19, fields in the order m, t, p without leading zeros, and canonical base64 parts. |
| PasswordHash.ReorderedIsNotPrinted | internal/auth/password_encode.go:126-162 | For every valid hash, the string with its fields reordered parses to the same hash and is not what that prints as. |
| SessionStore.Store.CreateSession | internal/store/redis/sessions.go:71-98 | Stores the session, adds it to its user's set and extends the set, or reports why not and changes nothing. |
| SessionStore.Store.GetSessionUserID | internal/store/redis/sessions.go:101-130 | Answers the live session's user; unauthenticated when there is none. |
| SessionStore.Store.DeleteSession | internal/store/redis/sessions.go:133-171 | A GET and then the script on that user's set; an absent session is no error; DeleteUnbindsIff and DeletedIsUnbound say what that does. |
| SessionStore.Store.DeleteUserSessions | internal/store/redis/sessions.go:174-204 | The loop of DELs removes exactly the keys of the set's members, then the set. |
| SessionStore.CreateBinds | internal/store/redis/sessions.go:71-98 | Creating answers Ok exactly for valid segments when Redis is reached; then the session is its user's for ttl from now and in its user's set, and every other session reads as before; otherwise nothing changes. |
| SessionStore.DeleteUnbindsIff | internal/store/redis/sessions.go:133-171 | Deleting answers Ok exactly when the calls it needs get through; then all else reads as before, and the session is gone if and only if the user ID it stored passes validation. |
| SessionStore.LongIsRefused | internal/validate/validate.go:145-160 | A user ID of 65 letters is a valid key segment that identifier validation refuses. |
| SessionStore.DeletedSessionStays | internal/store/redis/sessions.go:148-151 | The failing run: a session created for such a user ID is still there after DeleteSession has answered Ok. |
| SessionStore.DeletedIsUnbound | internal/store/redis/sessions.go:133-171 | In every run of validated callers with fresh IDs a successful DeleteSession leaves the map without that session, and takes it out of its user's set. |
| SessionStore.CreatedIsBound | internal/store/redis/sessions.go:71-98 | In every run with fresh IDs a successful CreateSession leaves the map with that session bound to its user for ttl, and a lookup of it answers that user. |
| SessionStore.UserDeletedIsUnbound | internal/store/redis/sessions.go:174-204 | In every run of validated callers with fresh IDs a successful DeleteUserSessions leaves the map without exactly that user's sessions. |
| SessionStore.CreateIsStep | internal/store/redis/sessions.go:86-95 | A call of CreateSession is the create step of the runs, or changes nothing. |
| SessionStore.DeleteIsStep | internal/store/redis/sessions.go:148-168 | A call of DeleteSession is the delete step on the session's own key and its owner's set, or changes nothing. |
| SessionStore.DeleteUserIsStep | internal/store/redis/sessions.go:194-201 | A call of DeleteUserSessions is the bulk-delete step for the validated user, or changes nothing. |
| SessionStore.IndexComplete | internal/store/redis/sessions.go:16-42 | In every interleaving each live session is in its user's live set, which expires no earlier. |
| SessionStore.BulkDeleteRevokes | internal/store/redis/sessions.go:174-204 | Right after DeleteUserSessions(u), in any run, no session resolves to u. |
| SessionStore.BulkDeleteExactIff | internal/store/redis/sessions.go:34-42 | Bulk deletion removes exactly u's live sessions if and only if no member of u's set is another user's live session. |
| SessionStore.ReusedIDLosesSession | internal/store/redis/sessions.go:16-42 | The failing run: an ID created for two users, then the first user's bulk deletion, ends the second user's session. |
| SessionStore.StoreRefinesMap | internal/store/redis/sessions.go:71-204 | With fresh session IDs every run shows exactly a plain timed map from session to user; stale set members never cost anybody a session. |
| SessionStore.LookupAnswersFromMap | internal/store/redis/sessions.go:101-130 | In every run a lookup answers from that map. |
| CharacterLocks.Store.Acquire | internal/store/redis/character_locks.go:74-103 | Takes the lock exactly when it is free; validation and Redis failures change nothing. |
| CharacterLocks.Store.Renew | internal/store/redis/character_locks.go:106-141 | Extends the lock only for its current owner. |
| CharacterLocks.Store.Release | internal/store/redis/character_locks.go:144-175 | Deletes the lock only for its current owner. |
| CharacterLocks.AcquireMeans | internal/store/redis/character_locks.go:97-102 | Acquiring answers whether the lock was free, and then the owner has it for the time to live; no other key differs. |
| CharacterLocks.RenewMeans | internal/store/redis/character_locks.go:17-22 | Renewing answers whether the owner had the lock, and then it has it for the time to live from now; no other key differs. |
| CharacterLocks.ReleaseMeans | internal/store/redis/character_locks.go:24-30 | Releasing answers whether the owner had the lock, and then nobody has it; no other key differs. |
| CharacterLocks.BadIDsRefused | internal/store/redis/character_locks.go:59-72 | An identifier that validation refuses is refused by all three operations, and nothing changes. |
| CharacterLocks.OperationsAreSteps | internal/store/redis/character_locks.go:74-215 | With valid identifiers and Redis in reach the three operations are these steps, with the store's time to live in place of one that is not positive. |
| CharacterLocks.LateOwnerChangesNothing | internal/store/redis/character_locks.go:16-30 | A renew or release by anyone but the current holder changes nothing. |
| CharacterLocks.LedgerMatches | internal/store/redis/character_locks.go:74-175 | In every run the lock entry is the last lease recorded from the answers; without an entry every lease is over. |
| CharacterLocks.LeasesDisjoint | internal/store/redis/character_locks.go:74-175 | The leases of a character are pairwise disjoint over the whole run, and an owner holds the lock exactly while the clock is inside one of its leases. |
| JoinTokens.Store.CreateJoinToken | internal/store/redis/join_tokens.go:41-77 | Stores the token until its expiry; an expired or unnameable token is refused. |
| JoinTokens.Store.ConsumeJoinToken | internal/store/redis/join_tokens.go:80-129 | Returns and deletes the token; a document that does not read back is deleted and refused. |
| JoinTokens.CreateStores | internal/store/redis/join_tokens.go:41-77 | Creating answers Ok exactly for a valid token segment, a future expiry and Redis in reach; then the token, and no other key, stands until it expires; otherwise nothing changes. |
| JoinTokens.CreatedIsConsumedOnce | internal/store/redis/join_tokens.go:41-129 | A created token is answered whole by its first consume if and only if it has not expired and its identifiers and address pass validation, and refused by every consume after that. |
| TokenLife.StandsOrGone | internal/store/redis/join_tokens.go:41-129 | In every run, over all servers, a token stands as issued until the first consume of it that reaches Redis, and is gone from then on. |
| TokenLife.ConsumeAnswersIff | internal/store/redis/join_tokens.go:41-129 | At every later point of every run consuming an issued token answers it whole if and only if no consume of it has reached Redis before and it has not expired; otherwise it is refused. |
| GameServers.Store.RegisterGameServer | internal/store/redis/game_servers.go:47-95 | SET, SADD, EXPIRE in turn, stopping at the first failure. |
| GameServers.Store.DeregisterGameServer | internal/store/redis/game_servers.go:99-119 | Deletes the server's record and leaves the index. |
| GameServers.Store.ListGameServers | internal/store/redis/game_servers.go:122-160 | Fails exactly when Redis is not reached or a member's read fails for a reason other than absence; otherwise returns the readable members, sorted by ID. |
| GameServers.Store.GetGameServerByID | internal/store/redis/game_servers.go:163-212 | The server's visible live record, or why there is none. |
| Text.LessIff | internal/store/redis/game_servers.go:155-157 | One ID is less than another exactly when it is a proper prefix of it or smaller at the first difference. |
| GameServers.SortByID | internal/store/redis/game_servers.go:155-157 | The result is a sorted permutation. |
| Registry.FlagsAreSteps | internal/store/redis/game_servers.go:81-90 | A registration that fails part way leaves what its commands up to the failure leave as steps of a run. |
| Registry.IndexedIffKept | internal/store/redis/game_servers.go:78-90 | In every run, commands of other servers between the three included, a server is in the index if and only if it was added and the index has not lapsed since. |
| Registry.CoverLasts | internal/store/redis/game_servers.go:88-90 | An EXPIRE by anyone keeps every server then in the index there for serverTTL. |
| Registry.ListedThroughoutIff | internal/store/redis/game_servers.go:81-90 | With any of its commands missing or late, a server is listed throughout its lease if and only if at every step it was added to the index and the index has not lapsed since. |
| Registry.ListedIffBeating | internal/store/redis/game_servers.go:47-95 | In every run, among any commands of other servers, a server that registers whole with a fixed lease, of any length, is live and indexed exactly while its last registration is less than a lease ago and, once that is serverTTL ago, the index has not lapsed since. |
| Registry.ListedOnSchedule | internal/game/server.go:319-339 | Beats that keep to a schedule shorter than the lease, which is at most serverTTL, keep the server listed at every step. |
| Registry.SlowScheduleUnlists | internal/game/server.go:319-339 | The failing run: on a schedule as long as the lease or longer the server gets unlisted. |
| Registry.IndexAlwaysOutlives | internal/store/redis/game_servers.go:78-90 | In every run of whole registrations with leases of at most serverTTL the index contains every live server and expires no earlier than it. |
| Registry.ListingIsExact | internal/store/redis/game_servers.go:122-160 | In every run, registrations cut short or interrupted included, a listing succeeds and is exactly the live indexed servers, strictly sorted by ID. |
| Registry.RegistryAgreementIff | internal/store/redis/game_servers.go:47-160 | A listing is exactly the live servers if and only if every live server was added to the index and the index has not lapsed since. |
| Registry.RegistryAgreement | internal/store/redis/game_servers.go:47-160 | In every run of whole registrations by validated callers with leases of at most serverTTL a listing succeeds and is exactly the live servers, strictly sorted by ID. |
| Registry.SplitRegistration | internal/store/redis/game_servers.go:81-90 | With only time between SADD and EXPIRE the server is indexed afterwards if and only if the index did not lapse in between. |
| Registry.PutAloneIsUnlisted | internal/store/redis/game_servers.go:81-86 | The failing run of a SADD that does not get through: the server is live and in no index. |
| Registry.StraddlingIsUnlisted | internal/store/redis/game_servers.go:81-90 | The failing runs of an EXPIRE that fails, or comes after the index has lapsed: the server is live and unlisted. |
| Registry.LongLeaseIsUnlisted | internal/store/redis/game_servers.go:63-90 | The failing run of a lease longer than serverTTL, which RegisterGameServer accepts: the server outlives the index. |
| Registry.RegisterAnswers | internal/store/redis/game_servers.go:47-95 | Registering answers Ok exactly for a valid ID and a future lease when all three commands get through; what is refused changes nothing. |
| Registry.LookupIsRecord | internal/store/redis/game_servers.go:163-212 | In every run looking a server up by ID answers its live record, or not found exactly when there is none. |
| Registry.DeregisterUnlists | internal/store/redis/game_servers.go:99-118 | Deregistering answers Ok exactly when Redis is reached; then the server is neither live nor listed and every other key reads as before; otherwise nothing changes. |
| Registry.DeregisteredIsGone | internal/store/redis/game_servers.go:99-212 | In every run, right after it no listing shows the server and looking it up finds nothing. |
| GameService.Service.SelectServer | internal/service/game.go:136-154 | The requested server, or the first of a listing; unavailable when the listing is empty. |
| GameService.Service.IssueJoinToken | internal/service/game.go:68-134 | The first failing check decides the error; otherwise the token stored is the one returned, which carries the order's user and character and the selected server (IssuedForServer); a failed call changes nothing. |
| GameService.EligibleIff | internal/service/game.go:78-99 | An order passes exactly with valid identifiers, a blank or valid server ID, and an existing character of that user; it keeps them as validation leaves them. |
| GameService.RefusedAs | internal/service/game.go:78-99 | Invalid argument exactly for a bad identifier, not found for a missing character, permission denied for somebody else's. |
| GameService.IssuedForServer | internal/service/game.go:101-122 | In every run of the registry the token carries the ID and address of a live record: the requested server's, or, when none was requested, that of the least listed ID. |
| GameService.IssueSucceedsIff | internal/service/game.go:101-134 | In every run of the registry an eligible order gets a token if and only if the requested server is live, or some server is listed when none was requested, and the random source and the write succeed. |
| Admission.IssuedTokenAdmitsThere | internal/service/game.go:101-134 | Such a token admits its player at the server that was asked for: at every later point of every run of the protocol, joining there succeeds if and only if it was not consumed, has not expired, the character exists and its lock is free. |
| GameService.SelectsLeastListed | internal/service/game.go:136-154 | In every run automatic selection picks the listed server with the least ID, and is unavailable exactly when none is listed. |
| GameService.SelectsLeastLive | internal/service/game.go:136-154 | In every run of whole registrations with leases of at most serverTTL that is the live server with the least ID, and unavailable exactly when none is live. |
| RateLimit.CounterKeyRenders | internal/store/redis/rate_limit.go:73-96 | Every caller key, after sanitizing, renders to a Redis key. |
| RateLimitKeys.LimitKeyText | internal/store/redis/rate_limit.go:49-96 | A raw key becomes its lower-cased, trimmed text with exactly colons, blanks, tabs and line breaks turned into underscores in place, or unknown when that is empty. |
| RateLimitKeys.CleanKeyStays | internal/store/redis/rate_limit.go:88-96 | A lower-case key without such characters or white space at its ends is its own counter key. |
| RateLimitKeys.ShareIff | internal/store/redis/rate_limit.go:49-96 | Two raw keys have one counter if and only if, lower-cased and trimmed, they agree up to separators and underscores, a blank key counting as unknown. |
| RateLimit.Limiter.Allow | internal/store/redis/rate_limit.go:44-71 | INCR, and EXPIRE when the counter is new; the answer compares the count with the limit. LimitKeyText says what the key becomes. |
| RateLimit.CountersRight | internal/store/redis/rate_limit.go:44-71 | In every run of calls that each happen at one moment, a counter holds exactly the calls counted in its bucket: none resets inside its own bucket. |
| RateLimit.AllowedExactly | internal/store/redis/rate_limit.go:44-71 | In such runs a call is allowed if and only if fewer than limit calls were counted before it in its bucket and its commands get through. |
| RateLimit.BurstBound | internal/store/redis/rate_limit.go:44-86 | In such runs at most (k + 1) * limit calls per key are allowed in any half-open stretch of k windows. |
| RateLimitKeys.RawAllowedExactly | internal/store/redis/rate_limit.go:44-96 | Over runs of calls with raw keys, a call is allowed if and only if fewer than limit calls for keys that share its counter were counted before it in its bucket and its own commands get through. |
| RateLimitKeys.RawBurstBound | internal/store/redis/rate_limit.go:44-96 | Of all calls whose raw keys share a counter at most (k + 1) * limit are allowed in any half-open stretch of k windows. |
| RateLimit.CounterLiveIff | internal/store/redis/rate_limit.go:59-68 | In every run a counter is live if and only if it was called for, and its first call's EXPIRE failed or came less than a window ago. |
| RateLimit.StaleCounterIff | internal/store/redis/rate_limit.go:59-68 | A counter of any other bucket than the current one and the one before is live if and only if its first counted call had its EXPIRE fail. |
| RateLimit.TwoBucketsLive | internal/store/redis/rate_limit.go:59-68 | A live counter whose first call's EXPIRE got through belongs to the current bucket or the one before. |
| RateLimit.FailedExpireStays | internal/store/redis/rate_limit.go:59-68 | The failing input: an INCR that gets through and an EXPIRE that does not leave a counter that no delay ends. |
| RateLimitRuns.AllowIsCommands | internal/store/redis/rate_limit.go:44-71 | A call at one moment is its INCR and, when that answers 1 and the EXPIRE gets through, its EXPIRE. |
| RateLimitRuns.AnswerIsRankIff | internal/store/redis/rate_limit.go:59-62 | With bucket pick, INCR and EXPIRE at any moments, an INCR answers its rank among all of its counter if and only if the counter has not lapsed since its first, and less otherwise. |
| RateLimitRuns.TimelyAnswerIsRank | internal/store/redis/rate_limit.go:59-68 | When every INCR lands in the bucket its call picked, no counter resets inside its own bucket, however late or missing the EXPIREs. |
| RateLimitRuns.GrantedPerBucket | internal/store/redis/rate_limit.go:59-71 | In such runs exactly the first limit increments of each counter are granted. |
| RateLimitRuns.TimelyBurstBound | internal/store/redis/rate_limit.go:44-86 | In such runs at most (k + 1) * limit calls per key are granted in any half-open stretch of k windows. |
| RateLimitRuns.LateIncrementRestarts | internal/store/redis/rate_limit.go:59-68 | The failing run: an INCR a window after the counter's EXPIRE starts the count again. |
| GameState.Clamp | internal/game/simulation.go:67-75 | The result lies between the bounds; a value between them is unchanged, one below becomes the lower and one above the upper. |
| GameState.AppliedPushes | internal/game/simulation.go:55-64 | A direction moves x by d.x * speed for d.x between -1 and 1, by speed above and by -speed below, y likewise by d.y alone, and the velocity is that displacement; without a direction nothing moves. |
| GameState.TickMoves | internal/game/simulation.go:44-86 | A tick moves each session's entity so by the packet in its own slot, leaves every other entity where it was, empties every slot and counts. |
| GameState.DrainMovesBySlots | internal/game/simulation.go:78-86 | With distinct entities a drain moves each entity by its own session's slot and nothing else, told without any order. |
| DrainOrder.OrderIrrelevantIff | internal/game/simulation.go:78-86 | A drain gives the same world in every order of the session map if and only if any two sessions whose slots move the same entity move it alike. |
| DrainOrder.DrainOrderIrrelevant | internal/game/simulation.go:78-86 | In particular every order gives the same world when no two sessions share an entity. |
| GameLoop.TicksFromStart | internal/game/server.go:174-198 | In the first T of the loop there are at most floor(T / interval) ticks. |
| GameLoop.TicksInStretch | internal/game/server.go:174-198 | In any later stretch of length T there are at most floor(T / interval) + 1 ticks. |
| GameLoop.TurnTicksIff | internal/game/server.go:193-198 | A turn ticks exactly when an interval has passed since the last tick, and after it less than one has. |
| GameLoop.TicksAtLeast | internal/game/server.go:174-198 | If no trip through the loop takes longer than G, then in the first T of the loop there are at least floor(T / (interval + G)) ticks. |
| GameLoop.TicksCounted | internal/game/server.go:193-198 | The world's tick number counts the ticks. |
| GameLoop.SpeedBound | internal/game/simulation.go:44-86 | If no two sessions share an entity at any turn, then between its join and its removal an entity moves by at most moveSpeed * ticks per axis, whatever packets arrive. |
| GameLoop.SpeedBoundInTime | internal/game/server.go:174-209 | Under the same assumption, in the first T of the loop no entity moves more than moveSpeed * floor(T / interval) per axis. |
| GameLoop.ReachIsProduct | internal/game/simulation.go:56-63 | The bound, defined by addition, is the product of speed and ticks. |
| GameLoop.CounterIsTickModulo | internal/game/server.go:193-207 | At the loop head the broadcast counter is the tick number modulo the divisor. |
| GameLoop.BroadcastExactly | internal/game/server.go:200-207 | A turn broadcasts exactly when it ticks onto a multiple of the divisor with someone connected, and sends the world as it stands then. |
| GameLoop.BroadcastsIncrease | internal/game/server.go:200-207 | Snapshots carry strictly increasing multiples of the divisor. |
| LatestWins.LatestPacketWins | internal/game/server.go:243-256 | Over every run the loop with overwritten slots equals a loop that keeps all packets and applies only the last one received since the previous tick, none twice. |
| World.World.AddEntity | internal/game/world.go:42-44 | The entity is filed under its ID; all others stay. |
| World.World.RemoveEntity | internal/game/world.go:52-54 | The entity filed under that ID goes; all others stay. |
| World.World.Snapshot | internal/game/world.go:57-66 | Lists a copy of every entity exactly once, with the current tick. |
| Sessions.SessionManager.Add | internal/game/session.go:36-40 | The peer's session is the new one; all others stay. |
| Sessions.SessionManager.Remove | internal/game/session.go:50-58 | Returns the peer's session, if any, and removes it; all others stay. |
| Sessions.SessionManager.All | internal/game/session.go:61-70 | Every session exactly once, in some order. |
| Sessions.SessionManager.Count | internal/game/session.go:73-77 | The number of sessions. |
| Simulation.Simulation.constructor | internal/game/simulation.go:25-36 | Non-positive settings are replaced by the defaults, so both are positive. |
| Simulation.Simulation.TickInterval | internal/game/simulation.go:39-41 | The longest whole interval that fits tickRate times into a second; positive exactly up to one tick per nanosecond. |
| Simulation.Simulation.ProcessInput | internal/game/simulation.go:44-65 | Mutating the entity in place moves it along the packet's direction, each axis clamped on its own, sets its velocity to that displacement, and leaves every other entity as it was. |
| Simulation.Simulation.DrainInputs | internal/game/simulation.go:78-86 | The loop over heap sessions is the drain over values in the order the map yielded, and leaves every slot empty. |
| Join.JoinAtomicity | internal/game/join.go:68-157 | On all eight exits: it joins exactly when it can, with lock, entity and session in place and all else unchanged; otherwise game and locks are as before and a token it looked up is gone; only a failed release leaves the lock, and nothing else, behind. |
| Join.ExitIff | internal/game/join.go:71-129 | For each of the eight exits, exactly when it is taken, read off the state before the call. |
| TokenLife.IssuedTokenAdmits | internal/game/join.go:80-119 | At every later point of every run an issued token admits its player to its server if and only if it was not consumed, has not expired, the character exists and its lock is free. |
| Join.JoinThenDisconnect | internal/game/join.go:68-189 | For a peer without a session and a character whose entity is absent, a join and a disconnect within the lease restore the game exactly, and Redis apart from the spent token. |
| Join.RejoinOrphans | internal/game/join.go:131-147 | A second join of the same peer as another character leaves the first lock taken, and orphans the first entity if and only if no other peer's session plays it. |
| Join.JoinKeepsAllPlayedIff | internal/game/session.go:36-40 | A successful join keeps every entity played by a session unless, and only unless, its peer was the only one to play an entity of the world and now plays another. |
| JoinHandler.JoinHandler.HandleJoinRequest | internal/game/join.go:68-157 | The handler over stores, world and sessions computes HandleJoin on their contents. |
| JoinHandler.JoinHandler.HandleDisconnect | internal/game/join.go:160-189 | The handler computes HandleDisconnect: session and entity go and the lock is released. |
| JoinPhases.HandlerIsPhases | internal/game/join.go:68-157 | The handler is the protocol's consume, acquire, load and release steps in a row. |
| JoinPhases.DisconnectIsPhases | internal/game/join.go:160-189 | The disconnect handler is the protocol's disconnect and release steps in a row. |
| JoinPhases.ShutdownIsPhases | internal/game/server.go:354-367 | The release loop of a shutdown is the protocol's shutdown step and one release step per session, in the order the map yields them. |
| JoinPhases.IssueIsStep | internal/service/game.go:93-126 | A successful IssueJoinToken with a fresh token is the protocol's issue step. |
| JoinPhases.RenewIsStep | internal/store/redis/character_locks.go:106-141 | Renewing a lock is the protocol's renew step: its effect on Redis and, exactly when it answers true, the later end of the leases of that character's sessions. |
| JoinPhases.EmptyShutdown | internal/game/server.go:354-367 | With nobody connected one empty release stops the server and leaves Redis alone. |
| Exclusion.NoSecondJoinWithinLease | internal/game/join.go:108-119 | After a join takes a character's lock at t, no join on any server takes it before t + lockTTL unless the holder released it. |
| Exclusion.LockLiveIff | internal/game/join.go:108-119 | A lock that nobody releases, renews or retakes is live if and only if less than lockTTL has passed since it was taken. |
| Exclusion.NextJoinIff | internal/game/join.go:108-119 | So the next join of the character, on any server, the holder's own included, takes the lock if and only if it comes lockTTL or more after the first. |
| Exclusion.LoadedJoinExcludes | internal/game/join.go:108-129 | For a join that loads, only a disconnect or a shutdown of its server can let another join in before t + lockTTL. |
| Lapse.SecondJoinAfterLease | internal/game/server.go:319-339 | From every initial state a run reaches a character played twice, on two servers or on one, by joins one lease apart; the first session has outlived its lease. |
| Lapse.OrderMattersAfterLease | internal/game/simulation.go:78-86 | And a server whose next drain depends on the order in which the map yields its sessions. |
| Provenance.TokenJoinsOnce | internal/store/redis/join_tokens.go:80-129 | In every run, over all servers, a token completes at most one join. |
| Provenance.SessionComesFromIssue | internal/game/join.go:80-106 | Every session traces to an earlier issue for its user, character and server, at which the user owned the character, consumed within joinTokenTTL. |
| Coherence.ServerStaysCoherent | internal/game/join.go:131-189 | While no session outlives its lease, a server's sessions have distinct characters, entities in the world and locks of its own, in every run. |
| Coherence.CharacterPlayedOnce | internal/game/join.go:108-119 | While no session of two servers outlives its lease, two sessions of theirs that play the same character are one session of one server. |
| Coherence.RenewExtends | internal/store/redis/character_locks.go:106-141 | While no lease has lapsed, renewing a session's character succeeds, extends the session's lease to a full time to live, and keeps the server coherent. |
| Renewal.RenewalsSuffice | internal/store/redis/character_locks.go:106-141 | In every run in which each session of a server joined, or had a renewal attempted, less than lockTTL ago at every moment, no lease ever lapses, so the lease hypothesis holds throughout. |
| Movement.ServerSpeedBound | internal/game/simulation.go:44-86 | Under the lease hypothesis alone, an entity moves by at most the speed times its server's ticks, with distinctness derived instead of assumed. |
| Movement.ServerSpeedBoundInTime | internal/game/server.go:174-198 | Under the lease hypothesis alone, an entity moves by at most the speed for each whole interval that fits into the time since the last tick before; from the server's start, speed * floor(T / interval). |
| Movement.ServerSpeedBoundInStretch | internal/game/server.go:174-198 | Under the lease hypothesis alone, in any stretch of time T, stalls included, an entity moves by at most speed * (floor(T / interval) + 1) per axis. |
| LoopRuns.TurnRuns | internal/game/server.go:174-257 | Each turn of a server's loop is steps of the protocol: those of its event, time passing, and a tick when due. |
| LoopRuns.LoopIsGood | internal/game/server.go:174-209 | The turns RunGameLoop makes inside runs of the system in which no session outlives its lease have distinct entities at each of them. |
| LoopRuns.LoopSpeedBound | internal/game/simulation.go:44-86 | So the speed bound holds of RunGameLoop's own turns without assuming distinct entities. |
| Arrivals.JoinIsEvent | internal/game/join.go:131-147 | What a join request does to the game is one join event, or nothing. |
| Arrivals.EventServes | internal/game/server.go:212-257 | By event and channel number: data on channel 0 joins exactly when it can; a packet on channel 1 sets exactly that peer's slot; a disconnect removes session and entity and frees the lock this server held if the release gets through; every other event changes nothing. |
| GameServer.GameServer.ReceiveInput | internal/game/server.go:243-256 | A decoded input overwrites the peer's slot; without a session or a packet nothing changes. |
| GameServer.GameServer.HandleENetEvent | internal/game/server.go:212-257 | Dispatch has exactly the effect of the event of the game it amounts to, and does what Serves says of each event and channel number. |
| GameServer.GameServer.RunGameLoop | internal/game/server.go:174-209 | For every sequence of arrivals the heap loop's world, sessions and broadcasts are those of the run of turns that GameLoop describes, each broadcast listing every entity once. |
| GameServer.GameServer.Register | internal/game/server.go:303-339 | Registration and each heartbeat announce this server with a lease of serverTTL from now. |
| GameServer.BeatIsStep | internal/game/server.go:303-339 | A beat that gets through is the registry's registration step for this server with a lease of serverTTL from now, one of those ListedBetweenBeats counts. |
| GameServer.BeatLists | internal/game/server.go:303-339 | Right after a beat the server is listed under its ID, with its address and lease, and the index covers it for serverTTL. |
| GameServer.ListedBetweenBeats | internal/game/server.go:319-339 | With the default heartbeat and leases, a server whose beats get through on time is listed at every step of a run, among any commands of other servers. |
| GameServer.GameServer.ShutDown | internal/game/server.go:343-378 | Releases the locks of all sessions, in some order and past failures, then deregisters. |
| Shutdown.ReleasesExactly | internal/game/server.go:354-367 | The release loop frees exactly the locks this server holds for its sessions' characters whose release gets through, whatever the order. |
| GameServer.ShutDownLeaves | internal/game/server.go:343-378 | A shutdown whose deregistration gets through removes this server's record and the locks it held for sessions whose release got through; every other key reads as before. |

## Left out

- ENet, HTTP, ConnectRPC and protobuf: a peer is a number, a packet is what it decodes to, and the replies
  and forced disconnects that sendJoinResponse issues appear only as the outcome.
- PostgreSQL stores and transactions: the character store is a map.
- Argon2, random generation, UUIDs and JSON: opaque parameters or datatypes.
- float64 coordinates: real numbers, so rounding, NaN and infinities are not modelled (clampFloat passes NaN through).
- The tick counter's 64-bit wrap-around.
- Time below the clock's unit: durations are whole units of whichever clock is meant, milliseconds for Redis and
  nanoseconds for the loop (one common unit in `Handoff`), so the truncation of shorter durations is not modelled.
- Strings are sequences of Unicode scalars, so invalid UTF-8 is not modelled; strings.ToLower is an arbitrary function.
- Values of the wrong Redis type under a key: commands on counters and sets treat them as absent, where Redis answers with an error.
- Exclusion.NoSecondJoinWithinLease: stops at one lease, because nothing in the code renews a lock; NextJoinIff and
  Lapse have what happens after.
- Coherence.ServerStaysCoherent: assumes that no session of the server outlives its lease, for the same
  reason, and ends when the server starts to shut down.
- GameLoop.SpeedBound: assumes distinct entities at every turn; LoopSpeedBound derives them from the leases.
- GameLoop.SpeedBoundInTime: the same.
- Registry.RegistryAgreement: is about whole registrations with leases of at most serverTTL; RegistryAgreementIff
  covers the others.
- Registry.IndexAlwaysOutlives: the same.
- GameService.SelectsLeastLive: the same; SelectsLeastListed covers the others.
- SessionStore.StoreRefinesMap: assumes fresh session IDs; for reused ones BulkDeleteExactIff has the exact condition.
- JoinHandler.JoinHandler.HandleJoinRequest: the clock stands still during one handler; the protocol's steps let it move.
- GameServers.Store.ListGameServers: all its reads happen at one moment, and reach Redis together or not at all.
- GameService.Service.IssueJoinToken: its reads and its write happen at one moment.
- RateLimit.Limiter.Allow: picks the bucket and runs INCR and EXPIRE at one moment, and so do the calls in
  CountersRight, AllowedExactly, BurstBound, CounterLiveIff and StaleCounterIff; RateLimitRuns has the runs in which
  they are apart.
- Join.JoinThenDisconnect: says nothing of a peer that already had a session or a character whose entity was
  already there; for those RejoinOrphans and JoinKeepsAllPlayedIff hold.
- GameServers.SortByID: sorts by insertion, where the source calls sort.Slice; only the result is stated.
- GameServer.GameServer.Register: one beat of the heartbeat; the ticker's own loop and its timing are not modelled.
- GameServer.GameServer.RunGameLoop: ends after a given number of trips, where the source ends when its context is cancelled.
- GetCharacterLockOwner and the other plain reads, which have no rule of their own.
- Mutexes: joins, disconnects, inputs and ticks all run on the one loop goroutine.
- Email and character-name validation: they rest on IDNA, mail parsing, Unicode normalization and regular expressions.
- Middleware, logging, metrics, configuration, wiring, health endpoints and error-code mapping.
