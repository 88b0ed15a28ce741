# iLink Hub: a verified model

iLink Hub shares one WeChat account among many agent backends. Backends pair with the Hub, poll it for
messages, are chosen by users with `/use`, call each other through MCP tools under an access-control
list, and may be reached from outside through a relay. This project models the parts of the Hub that
carry state or protocol across calls, and proves what they keep over every run.

One module per component:

| module | component | what is proved of it |
|---|---|---|
| `DeliveryQueue` | per-client message queue | at-least-once delivery, with its exact condition; exactly once for clients that echo their latest cursor; refinement to a log with a mark |
| `Pairing` | pairing registry | exactly when scan, confirm and claim succeed; one confirm per code; eviction is invisible |
| `PairingRows` | its rows and answers | what both maps keep in every run; which answer or error a code is given |
| `TokenBucket` | per-tenant rate limiter | exactly when a check is admitted; burst-plus-rate bound, evictions included; exact `retry_after`; isolation of tenants from each other |
| `FixedWindow` | relay rate limiter | sweeping is invisible; two windows' worth per closed window, and exactly when |
| `SlidingLog` | QR creation limiter | pruned lists decide like the full history |
| `PollGate` | hub-wide poll cap | cap, counts and no underflow in every interleaving of atomic steps, with a poisoned lock too |
| `Registry` | client registry, `/list`, `/use` | numbers mean lines, in any hash-map order |
| `Lifecycle` | registry and router together | routing integrity over all runs; retired tokens stay gone; routes stick; rollback is an inverse |
| `Acl` | access-control list | denotation of a spec; comma is union; visible iff allowed |
| `AclSyntax` | the text of a spec | exactly which text spells which entry, and so who may call whom |
| `Footer` | origin footer and its parser | round trip, with its exact condition, with and without a persona |
| `Relay` | relay server tables | reconnect safety; one key per device; the pending table is exactly the unsettled requests |
| `A2aGrant` | call-scoped session grants | exact rollback of nested calls; no grant outlives its call; depth is nesting level |
| `A2aOverlap` | calls that overlap | exactly when rollback works and which sessions survive; interleaving operation by operation |

`Base` and `Text` hold what they share: options, saturating time, `trim`, `find`, `split`, decimal
numerals and string order.

## How to read it

Code that updates fields in place is a class. Each method's contract ties the new fields to a function
of the old ones (`Log.Poll`, `Registry.Confirm`, `Check`, ...), and the theorems are about runs of
those functions. A run is a sequence of events, each recording the state before and after, or an index
recursion over a list of operations. Where the source chooses freely (a hash map's iteration order, the
victim among equally old keys, the replacement default), the choice is part of the event and the
theorems hold for every choice. Time is a parameter of each operation. Random values (codes, tokens,
keys, request ids) are parameters; a freshness condition is stated where a theorem needs one.

Every lemma carries `{:induction false}`: inductions are written out.

## What the proofs turned up

- A delivery is at least once exactly for clients whose acks, clamped, name no more than they were sent. Clamping
  an ack to the highest *allocated* id does not by itself prevent loss (`NothingLostIffSafeAcks`), and a
  cursor kept across the removal of a client can retire an unseen message (`StaleCursorLoses`).
- `confirm` takes the pending row out before it checks anything, so one failed attempt, a wrong CSRF
  token included, uses the code up (`OneConfirmAttempt`).
- A poll can be refused while no poll is being served, because attempts that are themselves about to be
  refused are counted (`RefusedByRefused`).
- The comment in `src/hub/acl.rs` that a typo narrows access is true of malformed entries and A2A
  (`OnlyEdgesGrant`), but not otherwise. A spec whose only WeChat entry is malformed hides nothing
  (`UnrestrictedIffNoWechatEntry`, `LostArrowHidesNothing`), and a WeChat entry that lost its `user:` prefix
  is a well-formed edge and grants a call (`LostPrefixGrants`).
- With a persona the name read back from a quote is the backend's only by coincidence: if the session shown
  is called the same, or, when no session is shown and nothing is stamped, if the text sent, persona included,
  holds a footer that names it (`PersonaNameIff`, `OlderFooterIsRead`, `RuleInPersonaIsRead`). The doc comments
  show a dash before the footer; the code writes a rule of three dashes, and the model follows the code.
- A footer's session is read back correctly unless it has none to show and the name or label looks like
  one (`FooterRoundTrip`).
- A begin and a release of an A2A call are several store operations each. If nothing else happens at the
  target in the middle of one, overlapping calls are rolled back exactly when each ends as the latest begun of
  those open; otherwise the grant of a call that is through stays in force (`RestoredIffInOrder`,
  `OverlapLeaksGrant`). If something does fall in the middle, the original row can be lost, a grant can stay
  although the calls ended in order, and another writer's row can be overwritten
  (`InterruptedReleaseLosesRow`, `InterruptedBeginLeaksGrant`, `InterruptedRestoreOverwrites`).
- A call's release sweeps away every backend session that others put at the target while it was open, unless
  it had been there when the call began (`NameSurvivesIff`).
- A relay limiter configured with a zero window admits everything (`BoundedIffWindowed`).
- `/use` looks its target up under one lock and writes the route under another; the route dangles exactly
  when some operation in between took the token out (`LateUseIsSoundIff`, `LateUseDangles`).

## Model

| member | source | states |
|---|---|---|
| `DeliveryQueue.PerClientSlot.Push` | src/hub/queue.rs:174-188 | The buffer goes on implementing its log: a push is refused exactly when the log is full, leaves no trace then, and otherwise gets the next id |
| `DeliveryQueue.PerClientSlot.Poll` | src/hub/queue.rs:196-220 | The loop that pops acknowledged messages answers with everything above the log's clamped mark and the cursor to echo |
| `DeliveryQueue.QueueIsLogAboveMark` | src/hub/queue.rs:174-220 | For any pushes and any acks, forged ones included: pending is exactly the accepted payloads above the largest clamped ack, in order, with contiguous ids ending at the last allocated, never more than the limit |
| `DeliveryQueue.NothingLostIffSafeAcks` | src/hub/queue.rs:196-220 | At every point of a run every accepted message is pending or was delivered, if and only if no ack, clamped to the highest id allocated when it came, named an id above those sent |
| `DeliveryQueue.UnsafeAckLoses` | src/hub/queue.rs:196-220 | The first ack that, clamped, goes beyond what was sent retires a message that no answer ever carried |
| `DeliveryQueue.EchoesAreSafe` | src/hub/queue.rs:196-220 | A client that only echoes cursors it was given, in any order, or sends none, never acknowledges more than it was sent |
| `DeliveryQueue.AtLeastOnce` | src/hub/queue.rs:174-220 | Over every interleaving of pushes and polls with echoed cursors, each accepted message is pending or was in some answer |
| `DeliveryQueue.EchoRetiresAnswer` | src/hub/queue.rs:196-220 | If the next poll returns the cursor of a poll, whatever that one acknowledged, it is sent exactly the payloads accepted since, all of them and nothing else |
| `DeliveryQueue.ExactlyOnce` | src/hub/queue.rs:174-220 | A client that always echoes its latest cursor has, after each poll, been sent every payload accepted so far, once each and in order |
| `DeliveryQueue.CursorIsLastId` | src/hub/queue.rs:213-218 | The cursor names the last message of the batch |
| `DeliveryQueue.RefusedIffBacklog` | src/hub/queue.rs:174-188 | A push is refused if and only if as many messages as the limit were accepted and not yet acknowledged |
| `DeliveryQueue.EchoedCursorIsRead` | src/ilink/types.rs:669-678 | A cursor rendered in decimal and returned verbatim is read back as that very ack, unless the numeric field exceeds it |
| `DeliveryQueue.AckIsLarger` | src/ilink/types.rs:669-678 | The ack is the larger of the number in the text and the non-negative field; text that is no 64-bit decimal and a negative field count for nothing |
| `DeliveryQueue.FieldIsRead` | src/ilink/types.rs:669-678 | A field above the echoed cursor wins, one without a cursor stands alone, and neither is no ack |
| `Text.ParseSigns` | src/ilink/types.rs:669-678 | A numeral is read alike with a plus sign before it; with a minus sign, or without any digit, it is not a number |
| `DeliveryQueue.SlotsAreIndependent` | src/hub/queue.rs:231-307 | After any operations by any clients, a client's slot is what its own operations since its last removal alone would have produced |
| `DeliveryQueue.EveryClientIsServed` | src/hub/queue.rs:231-307 | At-least-once delivery holds for every client of the shared queue, lifetime by lifetime |
| `DeliveryQueue.StaleCursorLoses` | src/hub/queue.rs:304-307 | A cursor from before a removal can retire a message of the next lifetime unseen |
| `DeliveryQueue.InMemoryQueue.GetOrCreate` | src/hub/queue.rs:231-254 | Creates a slot only if there is none, and changes no other client's log |
| `DeliveryQueue.InMemoryQueue.Push` | src/hub/queue.rs:264-266 | A push changes its own client's log only and reports that log's fullness |
| `DeliveryQueue.InMemoryQueue.Poll` | src/hub/queue.rs:286-294 | A poll answers as its client's log does, an unknown client's as an empty log, and creates no slot |
| `DeliveryQueue.InMemoryQueue.RemoveClient` | src/hub/queue.rs:304-307 | Forgets one client's log and no other |
| `Pairing.ConstantTimeEq` | src/hub/pairing.rs:325-334 | The accumulating byte loop answers true exactly for equal strings |
| `Pairing.PairingRegistry.Create` | src/hub/pairing.rs:128-148 | Purges, then enters the code unless the two maps are full, as the registry value does |
| `Pairing.PairingRegistry.MarkScanned` | src/hub/pairing.rs:197-223 | Purges, then marks the first scan with its time and token; a re-scan changes neither |
| `Pairing.PairingRegistry.PreCheckConfirm` | src/hub/pairing.rs:225-248 | Gives the verdict `confirm` would give, changing nothing but the purge |
| `Pairing.PairingRegistry.Confirm` | src/hub/pairing.rs:250-295 | Takes the row out first, checks it, and moves it to the confirmed map on success only |
| `Pairing.PairingRegistry.ClaimConfirmedVtoken` | src/hub/pairing.rs:174-195 | Answers with the token while the claim window is open and wipes it once closed |
| `Pairing.PairingRegistry.PurgeExpired` | src/hub/pairing.rs:119-126 | Drops exactly the rows that are due for eviction |
| `Pairing.RunRepresents` | src/hub/pairing.rs:119-299 | In every run the two maps represent each code's own story, so evicting rows is invisible |
| `Pairing.AnswersFollowStory` | src/hub/pairing.rs:174-295 | A confirm or claim succeeds exactly when the code's own story allows it, whatever was evicted and whatever other codes did |
| `Pairing.ConfirmIsTimely` | src/hub/pairing.rs:197-295 | A successful confirm presents the token of the first scan, at most 60 s after it, and that scan came at most 600 s after creation |
| `Pairing.ConfirmIff` | src/hub/pairing.rs:197-295 | From the events alone: a confirm succeeds if and only if the code was created, first scanned at most 600 s later, and this is the first confirm of it, at most 60 s after that scan and with the token it minted |
| `Pairing.FirstScanIff` | src/hub/pairing.rs:197-223 | A first scan succeeds if and only if the code was created at most 600 s ago and no confirm of it was tried |
| `PairingRows.VerdictFollowsStory` | src/hub/pairing.rs:225-295 | Which error a confirm or its pre-check gives: unknown, used up or purged codes are not found; then expiry, an earlier confirm within a day, a wrong token |
| `PairingRows.PreCheckAgrees` | src/hub/pairing.rs:225-248 | In every state the pre-check gives the verdict that a confirm would, and changes nothing but the purge |
| `PairingRows.CreateIff` | src/hub/pairing.rs:128-148 | A code is refused if and only if 1024 rows, pending and confirmed, outlast the purge |
| `Pairing.OneConfirmAttempt` | src/hub/pairing.rs:250-295 | After one confirm attempt on a created code, successful or not, no later confirm succeeds |
| `Pairing.OneConfirm` | src/hub/pairing.rs:250-295 | At most one successful confirm per code in any run |
| `Pairing.TokenIffClaimable` | src/hub/pairing.rs:174-195 | A claim carries token v if and only if the code's confirm with v is under 120 s old and was not rolled back |
| `Pairing.ClaimAnswersAreConvex` | src/hub/pairing.rs:174-195 | Claim answers for a code have the shape none, token, none: between two that carry a token all carry the same one |
| `PairingRows.ClaimShows` | src/hub/pairing.rs:174-195 | A claim shows a pending code its own session as it stands, a confirmed one, for a day, the name and label it was confirmed under, and nothing of any other |
| `PairingRows.RunsStayValid` | src/hub/pairing.rs:90-299 | In every run: at most 1024 rows, no code both pending and confirmed, no pending row with a bearer token, no confirmed row with a CSRF token |
| `TokenBucket.VtokenRateLimiter.CheckAt` | src/hub/rate_limit.rs:181-236 | Evicts a least recently used bucket when full, refills, and admits or denies as the bucket law says; a poisoned table fails open |
| `TokenBucket.VtokenRateLimiter.OldestKey` | src/hub/rate_limit.rs:196-204 | Scanning in any order finds a key last used no later than any other |
| `TokenBucket.BlockBound` | src/hub/rate_limit.rs:181-236 | Any block of consecutive checks of a bucket, with any clock readings, admits at most burst plus rate times the forward movement of the clock |
| `TokenBucket.OrderedBlockBound` | src/hub/rate_limit.rs:181-236 | With a non-decreasing clock: at most burst plus rate times elapsed time |
| `TokenBucket.AdmittedIff` | src/hub/rate_limit.rs:181-236 | A check is admitted if and only if no block of checks ending with it, from any visit or from the start, then exceeds its tokens plus rate times the movement of the clock |
| `TokenBucket.AdmittedIffWithinShare` | src/hub/rate_limit.rs:181-236 | In the shared limiter from an empty table: the same for an unevicted tenant, whose first bucket is full |
| `TokenBucket.FrozenClockAdmitsBurst` | src/hub/rate_limit.rs:181-236 | With the clock frozen a full bucket admits exactly the whole part of burst, then nothing |
| `TokenBucket.RetryAfterIsExact` | src/hub/rate_limit.rs:209-236 | However often the tenant retries and is denied, a check is admitted if and only if the first quoted wait is over |
| `TokenBucket.OwnVisitsAreHistory` | src/hub/rate_limit.rs:181-236 | In the shared table an unevicted tenant's checks form one bucket history, whatever others do in between |
| `TokenBucket.FairShare` | src/hub/rate_limit.rs:181-236 | In the shared limiter, over any block of checks by anyone from any table, a tenant is admitted at most burst times one more than its evictions, plus rate times the forward movement of the clock |
| `TokenBucket.TenantIsolation` | src/hub/rate_limit.rs:181-236 | In two runs with at most capacity tenants, a tenant that checks at the same times gets the same answers, whatever the others do |
| `TokenBucket.TableIsBounded` | src/hub/rate_limit.rs:196-204 | No run makes the table outgrow its capacity |
| `TokenBucket.RejectedCounts` | src/hub/rate_limit.rs:209-236 | The bucket counts exactly its refusals, saturating at 64 bits |
| `TokenBucket.VtokenRateLimiter.constructor` | src/hub/rate_limit.rs:144-151 | An unusable rate becomes 0.001 and an unusable burst 1; 4096 tenants are tracked |
| `TokenBucket.EvictedIsLeastRecent` | src/hub/rate_limit.rs:196-204 | Only a newcomer to a full table evicts, and whoever is evicted last checked no later than anybody else tracked |
| `FixedWindow.RateLimiter.Allow` | src/relay/ratelimit.rs:38-66 | Sweeps stale keys, restarts an expired window and counts, as the limiter's law says |
| `FixedWindow.SweepIsInvisible` | src/relay/ratelimit.rs:38-66 | With an ordered clock no answer differs from that of a limiter that never sweeps |
| `FixedWindow.TwoWindowsWorth` | src/relay/ratelimit.rs:38-66 | With a positive window any closed span of one window admits at most twice the maximum per key |
| `FixedWindow.BoundedIffWindowed` | src/relay/ratelimit.rs:38-66 | That bound holds for all traffic if and only if the window is positive or nothing is admitted |
| `FixedWindow.RefusedIffWindowFull` | src/relay/ratelimit.rs:38-66 | From the history: a request is refused if and only if its window has already seen as many requests of its key as are allowed |
| `SlidingLog.QrCreateRateLimiter.CheckAndRecord` | src/server/pairing.rs:296-321 | Prunes, displaces a least recent address when full, and records admitted requests only |
| `SlidingLog.LogCountsHistory` | src/server/pairing.rs:296-321 | The pruned list holds as many recent times as the full history since the address was last displaced |
| `SlidingLog.RefusedIffTwentyRecent` | src/server/pairing.rs:296-321 | A request is refused if and only if twenty admitted ones of its address lie within the last minute |
| `SlidingLog.DisplacedIffFull` | src/server/pairing.rs:296-321 | An address is displaced if and only if an admitted request of an address with nothing recent finds 4096 others that have, and it is one of those |
| `PollGate.PollTracker.Enter` | src/hub/state.rs:289-330 | One uninterrupted attempt is a reservation followed by a roll-back that restores the tracker, or by a count under the lock |
| `PollGate.PollTracker.Drop` | src/hub/state.rs:365-383 | Dropping a guard releases the total and then its own count, and nobody else's |
| `PollGate.StepInv` | src/hub/state.rs:289-383 | Every atomic step of every worker keeps the gate's invariant, and no decrement finds zero |
| `PollGate.GateIsSafe` | src/hub/state.rs:245-383 | In every interleaving: live guards within the cap, the total is guards plus attempts in flight, and while the lock is sound each count is the number of that token's guards, absent exactly when zero |
| `PollGate.QuietGateIsEmpty` | src/hub/state.rs:365-383 | Once all workers are idle the total is zero and no count is left |
| `PollGate.RefusedIffFull` | src/hub/state.rs:289-330 | An attempt is refused if and only if guards and attempts in flight together fill the cap |
| `PollGate.RefusedByRefused` | src/hub/state.rs:289-330 | A run in which a poll is refused although no guard is live |
| `Registry.ClientRegistry.Register` | src/hub/registry.rs:117-140 | A known name keeps its token and goes online; a new one is entered under the minted hash |
| `Registry.ClientRegistry.RegisterConfirmed` | src/hub/registry.rs:201-216 | Refuses a name in use and changes nothing then |
| `Registry.ClientRegistry.RotateVtoken` | src/hub/registry.rs:365-378 | Moves the client to a new hash in both maps, offline |
| `Registry.ClientRegistry.Remove` | src/hub/registry.rs:380-387 | Takes a name and its token out of both maps |
| `Registry.ClientRegistry.UpdateClient` | src/hub/registry.rs:391-422 | Renames in both maps unless the name is unknown or the new one in use |
| `Registry.ClientRegistry.UpdateMetadata` | src/hub/registry.rs:268-290 | Overwrites just the details given |
| `Registry.ClientRegistry.AllClientsIn` | src/hub/registry.rs:340-352 | Iterating in any order yields exactly the visible clients, each once |
| `Registry.ClientRegistry.ListClients` | src/hub/commands.rs:136-146 | The lines are exactly the visible clients in strictly ascending order of name |
| `Registry.ClientRegistry.GetByAliasIn` | src/hub/registry.rs:249-264 | Resolves against the one listing there is, never to a hidden client, and a registered name to the token it has |
| `Registry.ClientRegistry.PickDefaultAfterRemove` | src/hub/registry.rs:426-437 | Some other online client if there is one, else some other client, else none |
| `Registry.ListingIsUnique` | src/hub/registry.rs:340-352 | A registry has one listing, so hash-map order cannot show |
| `Text.LexMeans` | src/hub/registry.rs:261-262 | The order of names is that of their first difference, a proper beginning coming first |
| `Registry.UseMeansListedLine` | src/hub/registry.rs:249-264 | Whatever order either command iterated in, a registered name resolves to the listed client that has it and to no other; a numeral no client is named after means that line of the list; other text means nothing |
| `Registry.NumeralMeansListedLine` | src/hub/commands.rs:136-181 | Typing the number shown beside a line picks that line, and any other number picks nothing |
| `Registry.RegisterYields` | src/hub/registry.rs:117-140 | A known name gets back the token it has, goes online and takes the details given; a new one is entered offline under the new token; every other name finds what it found |
| `Registry.RegisterConfirmedYields` | src/hub/registry.rs:201-216 | Succeeds if and only if nobody has the name; every other name finds what it found |
| `Registry.UpdateYields` | src/hub/registry.rs:391-422 | Refused exactly for an unknown client or a new name somebody else has; else the new name finds the client, token and details kept, the old one nobody, and every other what it found |
| `Registry.MetadataYields` | src/hub/registry.rs:268-290 | The client with that token takes the details given and keeps the rest; every other name finds what it found |
| `Registry.PresenceYields` | src/hub/registry.rs:314-328 | Only the client with that token changes, and only in presence |
| `Registry.RemoveYields` | src/hub/registry.rs:380-387 | Nobody has the name afterwards, and every other name finds what it found |
| `Lifecycle.Router.RemoveRoutesForVtoken` | src/hub/router.rs:199-204 | Drops every route to the token and replaces the default if it was the token |
| `Lifecycle.HubState.RegisterClientInHub` | src/server/pairing.rs:354-401 | Registers, and makes the first client the default |
| `Lifecycle.HubState.RegisterConfirmedClientInHub` | src/server/pairing.rs:403-447 | Enters a paired client, or refuses a name in use and changes nothing |
| `Lifecycle.HubState.UnregisterClientInHub` | src/server/pairing.rs:477-531 | Refuses unknown clients and, unless forced, online ones; otherwise removes the client and its routes with a legal new default |
| `Lifecycle.HubState.RevokeClientInHub` | src/server/pairing.rs:562-612 | Rotates the token and clears the old one's routes with a legal new default |
| `Lifecycle.HubState.UpdateClientInHub` | src/server/pairing.rs:623-668 | Trims the new name, refuses an empty one or one in use, and touches no route |
| `Lifecycle.HubState.RollbackSpeculativeRegister` | src/server/pairing.rs:913-960 | Removes the client only if the name still maps to the speculative token |
| `Lifecycle.HubState.SetPresence` | src/hub/registry.rs:314-328 | Going online or offline changes that one flag and keeps a sound hub sound |
| `Lifecycle.HubState.HandleCmdUse` | src/hub/commands.rs:193-218 | Routes the user to the listed client the text resolves to, if the route could be stored; for a registered name, to the token registered under it |
| `Lifecycle.RoutingIntegrity` | src/server/pairing.rs:354-612 | After every operation of every run from an empty hub: the two maps are inverse, there is a default exactly when there is a client, and every user's messages go to a registered client as soon as there is one |
| `Lifecycle.StepIsSound` | src/server/pairing.rs:354-960 | Each of register, pair, use, rename, revoke, unregister, rollback and presence keeps the hub sound |
| `Lifecycle.RetiredTokenIsGone` | src/server/pairing.rs:477-612 | A token that any operation took out is mentioned by neither map, no route and no default ever after |
| `Lifecycle.RetiredBy` | src/server/pairing.rs:477-960 | Only a revoke, a rollback naming that token, or an unregister that was forced or found it offline takes a token out, and only that of the client named |
| `Lifecycle.UnregisterYields` | src/server/pairing.rs:477-531 | Refused exactly for an unknown client, or one online and not forced; else the hub forgets the client, its users fall back on the default, and every other name and user find what they found |
| `Lifecycle.PickPrefersOnline` | src/hub/registry.rs:426-437 | A replacement default is somebody else, online if anybody else is, and there is one if anybody else is registered |
| `Lifecycle.RenameYields` | src/server/pairing.rs:623-668 | What the update answers in each case, what every name finds afterwards, and that no route changes |
| `Lifecycle.RouteSticks` | src/hub/router.rs:194-211 | A user's choice holds until that user's next `/use` or until the chosen token is retired, whatever anyone else does |
| `Lifecycle.RollbackUndoesRegister` | src/server/pairing.rs:913-960 | Registering a new name and rolling it back at once restores the hub exactly, default and routes included, for every legal pick and from an empty hub too |
| `Lifecycle.RollbackLeavesTheRest` | src/server/pairing.rs:913-960 | From any sound hub, empty ones included, and with any completed operations on other clients in between: the rollback leaves exactly the clients and routes those requests alone would have left, whatever was picked; the default stays, unless it fell on the new client, and then is the one picked now |
| `Lifecycle.RollbackLeavesNoTrace` | src/server/pairing.rs:913-960 | If there was a client before and the picks would have been legal without the new one, the hub is in every respect what it would have been without the registration |
| `Lifecycle.StaleRollbackIsNoOp` | src/server/pairing.rs:913-960 | In any run, a rollback whose token was taken out earlier changes nothing, so a client registered under the name since survives |
| `Lifecycle.RevokeKeepsIdentity` | src/hub/registry.rs:365-378 | After a revoke nothing mentions the old token, the client keeps every detail but token and presence, and no other client or surviving route changed |
| `Lifecycle.LateUseIsSoundIff` | src/hub/commands.rs:193-218 | For a look-up at one point of a run and the write at any later one: the route is sound if and only if no event in between takes the token out, and otherwise leads to a token the hub has forgotten |
| `Lifecycle.LateUseDangles` | src/hub/commands.rs:193-218 | An unregister between the look-up and the write leaves a route to nobody |
| `Acl.Parse` | src/hub/acl.rs:59-117 | The entry loop builds exactly the denotation of the spec |
| `Acl.AclIsWhatEntriesSay` | src/hub/acl.rs:59-117 | The parsed list holds exactly the well-formed entries, has no empty rows, and is present if and only if some entry is not blank |
| `Acl.EntryOrderIsIrrelevant` | src/hub/acl.rs:59-117 | Specs with the same entries in any order, repeated or not, parse alike |
| `Acl.CommaIsUnion` | src/hub/acl.rs:59-117 | Parsing two specs joined by a comma is the component-wise union of parsing each |
| `Acl.VisibleTargetsForAgent` | src/hub/acl.rs:146-159 | Collects the caller's row and the wildcard row, or no restriction when either has a wildcard |
| `Acl.AllowedIffVisible` | src/hub/acl.rs:136-159 | A caller may invoke a target if and only if what it is shown is unrestricted or contains it |
| `Acl.AllowedIffSaid` | src/hub/acl.rs:136-140 | Every grant is witnessed by an edge entry for the pair, up to wildcards, and every such entry grants |
| `Acl.OnlyEdgesGrant` | src/hub/acl.rs:59-140 | Appending entries never revokes a grant, and entries that are not edges, malformed ones included, add none |
| `Acl.UnrestrictedIffNoWechatEntry` | src/hub/acl.rs:166-176 | WeChat visibility is unrestricted if and only if no well-formed WeChat entry is present |
| `Acl.SeenIffSaid` | src/hub/acl.rs:166-176 | Otherwise a user sees exactly the registered backends that some entry shows to everyone or to that user |
| `AclSyntax.ReadIffSpelt` | src/hub/acl.rs:59-117 | A piece of text is read as an entry if and only if it spells it: an edge is two non-blank words around the first arrow, the left one without the user prefix, or a bare star; a user edge has the prefix and no star; anything else without an arrow or prefix is public; white space may surround every part |
| `AclSyntax.MalformedIffNothingSpelt` | src/hub/acl.rs:59-117 | A piece is skipped as malformed if and only if it spells no entry at all |
| `AclSyntax.PiecesOfSpec` | src/hub/acl.rs:59-64 | Texts without commas, joined by commas, spell in the spec exactly what each spells alone |
| `AclSyntax.AllowedIffWritten` | src/hub/acl.rs:136-140 | One agent may call another if and only if some piece of the spec spells an edge for the pair, up to wildcards |
| `AclSyntax.SeenIffWritten` | src/hub/acl.rs:166-176 | WeChat visibility is restricted if and only if some piece spells a WeChat entry, and then to exactly the registered backends spelt for everyone or for that user |
| `AclSyntax.LostArrowHidesNothing` | src/hub/acl.rs:97-113 | The spec user:alice restricts nobody |
| `AclSyntax.LostPrefixGrants` | src/hub/acl.rs:67-96 | Dropping the prefix from a user edge turns it into a call grant that the intended entry would not have given |
| `Footer.ApplyPersonaAndFooter` | src/hub/outbound_label.rs:84-148 | Stamps the first text item only, and leaves a message without one alone |
| `Footer.LastRuleIsStamped` | src/hub/quote_route.rs:64-99 | Whatever the body holds, older footers included, the last rule found is the stamped one |
| `Footer.ParseStamp` | src/hub/quote_route.rs:64-99 | Parsing a stamped footer recovers its first component and its last session-shaped one |
| `Footer.FooterRoundTrip` | src/hub/quote_route.rs:64-99 | The name always comes back; the session comes back right if and only if one is shown that is session-shaped, or nothing else in the footer is |
| `Footer.FooterShows` | src/hub/outbound_label.rs:25-46 | Split at its dots the footer is the name, the label unless blank or the name again, and the session unless blank or the default one |
| `Footer.StampedText` | src/hub/outbound_label.rs:25-46 | A message to the character: blank line, rule, name, label and session with dots between |
| `Footer.PersonaText` | src/hub/outbound_label.rs:53-124 | A message under a persona to the character: emoji, name in asterisks, blank line, body, rule and session alone |
| `Footer.ParseOldStyle` | src/hub/quote_route.rs:64-99 | A footer in the old style is read alike where there is no rule of the current style |
| `Footer.ParseBareLine` | src/hub/quote_route.rs:64-99 | So is a dash and a line that are the whole text |
| `Footer.PersonaReadBack` | src/hub/outbound_label.rs:53-124 | Under any persona and emoji the parser reads the session as the backend, or, if none is shown, the line under the last rule of the text itself, header included |
| `Footer.PersonaNameIff` | src/hub/quote_route.rs:64-99 | Under any persona and emoji the name read back is the backend's if and only if the session shown equals it, or none is shown and the line under the text's own last rule names it |
| `Footer.HeadedLineIff` | src/hub/quote_route.rs:64-78 | In a headed text there is a line to read if and only if the body with its preceding newline or the header holds a rule of either style, or the header opens with a dash |
| `Footer.PersonaReadsNothing` | src/hub/outbound_label.rs:84-124 | With a persona, no session, no rule in body or header and no header opening with a dash, nothing is read back |
| `Footer.OlderFooterIsRead` | src/hub/outbound_label.rs:84-124 | With a persona and no session, a reply ending in an older footer is traced to whoever that footer names |
| `Footer.RuleInPersonaIsRead` | src/hub/outbound_label.rs:53-124 | A rule inside a persona is taken for the footer rule: with no session shown and no rule in the body, the rest of the persona and the whole body are read as the footer line |
| `Relay.RelayState.AcceptRegistration` | src/relay/server.rs:127-165 | Accepts a verified registration only with the device's bound key, binding it the first time |
| `Relay.RelayState.Cleanup` | src/relay/server.rs:274-284 | Removes the device's entry only if it still names this connection |
| `Relay.RelayState.Respond` | src/relay/server.rs:255-260 | A response reaches a waiter if and only if that waiter's request began under its id and was neither answered nor ended since |
| `Relay.ReconnectIsSafe` | src/relay/server.rs:233-284 | In every interleaving a device's entry exists if and only if its latest registered connection has not cleaned up, and names that connection |
| `Relay.OneKeyPerDevice` | src/relay/server.rs:155-164 | All accepted registrations of a device in a run carry one key |
| `Relay.AcceptedIffNoOtherKey` | src/relay/server.rs:155-164 | A verified registration is accepted if and only if no earlier accepted one of that device carried another key |
| `Relay.PendingIsExact` | src/relay/server.rs:255-348 | After any actions in any order, forged and repeated responses included, a request is pending if and only if it began and was neither answered nor ended since |
| `Relay.WaiterIsOwn` | src/relay/server.rs:298-348 | A pending request's entry is the waiter it began with |
| `Relay.QuietTableIsEmpty` | src/relay/server.rs:287-296 | Once every request that began has ended the table is empty, whatever responses came |
| `Relay.SettledOnce` | src/relay/server.rs:255-296 | After the first response to a begun request, or its end, it is never pending again, so it is answered at most once |
| `A2aGrant.SessionStore.BeginCall` | src/mcp/tools.rs:144-180 | Uninterrupted, takes the snapshot of the old row and sessions, and writes the call's own row at one more than the caller's depth, up to 255 |
| `A2aGrant.SessionStore.ReleaseA2aGrant` | src/mcp/tools.rs:332-393 | Uninterrupted, drops the call's row if it is still there, restores the old one if there is none, and reclaims the new sessions |
| `A2aGrant.SessionStore.ReclaimSessions` | src/mcp/tools.rs:332-393 | The deletion loop keeps exactly the sessions that were there before |
| `A2aGrant.SessionStore.DeleteActiveSessionIfName` | src/store/sessions.rs:414-430 | Deletes the active row only if it bears that name |
| `A2aGrant.NoGrantSurvives` | src/mcp/tools.rs:144-393 | After any nest of calls, each begun and released uninterrupted, a row is the one that was there before or one another writer put there |
| `A2aGrant.RollbackIsExact` | src/mcp/tools.rs:144-393 | However calls nest, onto one target included, each begun and released uninterrupted, a pair no other writer touches ends with exactly the row and depth it began with |
| `A2aGrant.NewerRowWins` | src/mcp/tools.rs:332-393 | A release that is not interrupted respects a row another writer left at the pair; otherwise the snapshot comes back |
| `A2aGrant.CallReclaimsSessions` | src/mcp/tools.rs:332-393 | Afterwards no backend session survives that was absent before, and release takes none away that was present |
| `A2aGrant.DepthIsLevel` | src/mcp/tools.rs:170-180 | In any nest, targets recurring or not, a call made at the depth the caller reads in its own row runs one level deeper than the call it is made in, up to 255 |
| `A2aGrant.ChainWritesDepth` | src/mcp/tools.rs:170-180 | The last of n calls in a chain from depth 0 writes a row of depth n |
| `A2aGrant.AtMostFiveDeep` | src/mcp/router.rs:188-194 | With the guard on depth, a call made for a user never has more than five calls open, itself included |
| `A2aOverlap.RestoredIffLastInFirstOut` | src/mcp/tools.rs:144-393 | For whole begins and releases in any order on any targets: once all calls on a pair have ended its row and depth are the original ones if and only if each ended as the latest begun of those open; otherwise the row is the grant of a call that has ended |
| `A2aOverlap.WholeSimulates` | src/mcp/tools.rs:144-393 | Begins and releases split into their store operations, interleaved freely elsewhere, amount at a pair to whole ones if nothing else happens there in the middle of one |
| `A2aOverlap.RestoredIffInOrder` | src/mcp/tools.rs:144-393 | Operation by operation, with nothing else at the pair in the middle of a begin or release there: once all calls on it are through its row is the original one if and only if each ended as the latest begun of those open; otherwise it is the grant of a call that is through |
| `A2aOverlap.InterruptedReleaseLosesRow` | src/mcp/tools.rs:332-369 | A begin between the delete and the second look of a release: both calls end and the original row is lost |
| `A2aOverlap.InterruptedBeginLeaksGrant` | src/mcp/tools.rs:144-180 | A delete between the reading and the writing of a begin: the calls end last in first out and a grant stays in force |
| `A2aOverlap.InterruptedRestoreOverwrites` | src/mcp/tools.rs:332-369 | A row written by someone else between the second look and the restore is overwritten |
| `A2aOverlap.NameSurvivesIff` | src/mcp/tools.rs:332-393 | Once all calls on a pair have ended, the last put of a backend session there has lasted if and only if every call then open had found that name when it began |
| `A2aOverlap.OldNamesSurvive` | src/mcp/tools.rs:332-393 | Backend sessions that were there from the start, and that nobody drops or replaces, survive any overlapping calls |
| `A2aOverlap.OverlapLeaksGrant` | src/mcp/tools.rs:332-393 | The smallest failing order: two calls released in the order they began leave the first grant in force |

## Left out

- DeliveryQueue: ids are unbounded; the wrap of the 64-bit id counter after 2^63 pushes is not modelled.
- DeliveryQueue: `wait_notify` appears only as the slot it may create; wake-ups and timeouts are not modelled.
- DeliveryQueue: a push that already holds a slot while `remove_client` drops it from the table writes to an orphan; operations on the table are taken whole.
- TokenBucket.RetryAfterIsExact: exact for real arithmetic; `f64` rounding, nanosecond rounding of the wait and the panic of `Duration::from_secs_f64` for extremely small rates are not modelled, in this or any other member of `TokenBucket`.
- TokenBucket, PollGate: retuning limits in the middle of a run.
- Pairing: the several clock readings a purge makes are one reading, and each operation has a second one.
- PairingRows.VerdictFollowsStory: for a scanned code over a minute old at the purge, states that it is refused but not with which error, since its row may linger marked expired.
- Pairing: `PairConfirmRateLimiter` has the shape of the QR limiter modelled in `SlidingLog`.
- PollGate.PollTracker.Enter: runs its two atomic steps without interruption; their interleavings are the subject of `GateIsSafe`.
- PollGate.PollTracker.Drop: runs its two atomic steps without interruption; their interleavings are the subject of `GateIsSafe`.
- Lifecycle.HubState.UnregisterClientInHub: does not remove the client's queue slot, its `last_seen` entry or its database rows.
- Lifecycle.HubState.RevokeClientInHub: does not remove the old token's queue slot, its `last_seen` entry or its stored authorizations.
- Lifecycle.HubState.RollbackSpeculativeRegister: does not remove the client's queue slot, its `last_seen` entry or its database rows.
- Lifecycle.RollbackLeavesTheRest: leaves out operations on the new client itself in between.
- Lifecycle: operations run to completion, except for the late route write treated in `LateUseIsSoundIff`; the database mirror and the startup default are not modelled.
- Lifecycle.HubState.HandleCmdUse: the answer's wording is not modelled, nor the registration time of a client.
- Registry.ClientRegistry.ListClients: the lines are client records; how a line is rendered is not modelled.
- Footer.PersonaNameIff: a session shown holds neither newline nor dot separator.
- Relay.RelayState.AcceptRegistration: device id, signature, timestamp and nonce checks are one boolean; the 1024-hub cap is not modelled.
- A2aGrant.SessionStore.BeginCall: its store operations run without interruption; their interleavings are the subject of `A2aOverlap`.
- A2aGrant.SessionStore.ReleaseA2aGrant: its store operations run without interruption; their interleavings are the subject of `A2aOverlap`.
- A2aGrant.NewerRowWins: for a release without interruption; `InterruptedRestoreOverwrites` shows what one can do.
- A2aGrant.DepthIsLevel: a caller reads the row of the conversation it is serving; that the store picks the most recently updated of its rows is not modelled.
- A2aGrant, A2aOverlap: store operations succeed, and the expiry time of an active row is not modelled (a restored row is renewed).
- A2aOverlap.RestoredIffInOrder: says nothing of schedules in which something else happens at the pair in the middle of a begin or release; some of them restore the row and some do not.
- A2aOverlap.NameSurvivesIff: a begin lists the sessions and a release lists and deletes them without interruption.
- HTTP, WebSocket and SSE transport, QR codes, HTML, the CLI, the desktop app, e-mail, metrics and message texts.
- Hashing, UUIDs and signatures: opaque or fresh values.
- SQL: the session tables are maps.
