# Verification of the Cryptix stratum bridge

The bridge stands between a Cryptix node and mining hardware. It turns block templates into jobs, hands
each miner its own part of the nonce space, judges the shares that come back, retunes every miner's
difficulty, and speaks two protocols over one port: line-based JSON (V1) and framed binary messages (SV2).
This project models that logic and proves what it promises, over all inputs, all runs and, where goroutines
share state, all interleavings.

Check everything with `dafny verify dfyconfig.toml`.

## How the model is laid out

- **Difficulty control.** `VarDiff` is the controller of one worker as a state machine over retarget passes,
  shares, pauses and restarts. `Handshake` interleaves it, step by step, with any number of block jobs in flight and a
  channel opening. `BlockFanOut` is the undisturbed block job in the code's own imperative form.
- **Judging shares.** `ShareHandler` holds the judge as a class over shared statistics (`ShareStats`), the bounded
  duplicate detector (`DupeHistory`), the job ring (`MiningState`) and the lock-free tip. Each method is tied to a
  function on values (`Ledger`, `ShareHandler.Handle`). `ShareRuns` proves what whole histories keep, `Verdicts` what each
  share of one is answered, and `V1Submits` what the texts of a V1 submit come to.
  `TipRace` and `StatsRace` take the same code apart into its atomic steps; `StatsEntries` follows single entries
  through them, and `StatsAlone` puts them together again.
- **The binary protocol.** `Frames` (framing, connections, protocol sniffing), `Sv2Payloads` (cursor, buffer, message
  layouts), `Sv2Session` (what a session does), `Sv2Openings` and `Sv2Replies` (what its miner reads back), `Sv2Shares` (what a
  success reply says about the books) and `Sv2Handler` (the frame loop, reading from a connection that delivers its
  bytes in arbitrary pieces).
- **Encodings.** `Targets` (difficulties, targets, compact bits), `Header` (the bytes that are hashed), `JobWire` (the
  two text forms of a job), `Nonces` (extranonces, submitted nonces, share keys).
- **Connections.** `WriteLock` is the compare-and-swap write lock and the once-only disconnect for any number of
  goroutines, and `WriteEnds` how their calls end; `StratumContext` is one goroutine's own code under that interference.
- `Bytes`, `Hex`, `Arithmetic` and `Wrappers` are what the others are built from.

Code that works by changing fields, maps and buffers is a class or a method with loops; its `ensures` ties it to a
function on values, and the laws are lemmas about that function. Time and difficulty are reals. Division of big
floats is exact division followed by an arbitrary monotone rounding that keeps signs and one power of two. Proof of
work, block conversion, the digest, address parsing and the node's answers are parameters.

## Where the code and its promise part

Each of these is stated for the code as it is, with a concrete input or with the exact condition.

- A retarget can leave the difficulty as it was; then nothing is sent and tracking never resumes. This happens
  exactly when the share count has passed the current window's cap while the elapsed time calls for exactly that many
  shares (`VarDiff.SilentRetarget`, `Handshake.SilentRetargetStalls`).
- Two block jobs of one client can get in each other's way: one stores a difficulty although the controller has decided
  anew since it read, or while another is about to store too; or one stores or delivers while the first contact has still
  to read or tell its own. Exactly then a write of some decision is tried twice or out of order (`Handshake.EachRetargetDeliveredOnce`,
  `Handshake.OverlappingJobsMisdeliver`).
- A V1 difficulty write that does not go through is only logged and tracking resumes all the same. The client is told
  every decision once and in order exactly when no such write is lost (`Handshake.EachRetargetDeliveredOnce`), and it has
  been told the decision it is tracked at exactly when the last one was not (`Handshake.TrackedAsTold`,
  `Handshake.LostWriteMisleads`).
- A second SV2 channel opening makes a new decision for the minimum but tells the miner its old difficulty, so it is never
  in step with the decisions taken (`Handshake.EachRetargetDeliveredOnce`). In values it does harm exactly when the client
  did not stand at the minimum (`Handshake.ReopenedValues`, `Handshake.ReopeningMisleads`).
- The job ring ignores an id's age and sign, so ids a multiple of 32 apart name the same job, negative ones only through
  slot 0, and one share is accepted under both (`ShareRuns.AliasedIds`, `ShareRuns.AliasAcceptedTwice`).
- A V1 nonce with more digits than the miner's part is taken as it stands: exactly such nonces collide between
  connections (`Nonces.LongNoncesCollide`, `Nonces.LongNonceInOwnSpace`).
- The frame writer accepts payloads up to 16777215 bytes, the reader only up to 1048576 (`Frames.FrameRoundTrip`).
- A block is booked on the statistics entry claimed after the node answered, its share on the one claimed before. The two
  are one entry exactly when the first one's key, followed through the migrations in between, is by then the identity's
  key, or its remote address while its key is unused; otherwise one entry can show a block and no share
  (`StatsEntries.LeadsBack`, `StatsEntries.EntryBlocksWithinShares`, `StatsEntries.BlockOnAnotherEntry`).
- A socket write that fails half way releases the lock before the disconnect it asks for has run, so another message
  can follow a torn one; exactly then the wire is more than whole messages and a cut last one (`WriteLock.WireIntact`,
  `WriteLock.TornMessageIsFollowed`).
- A V1 client in solo mode learns no difficulty from its first block exactly when the network's difficulty is the
  configured minimum or zero (`BlockFanOut.BlockIsHeard`).
- The share quota of a window is a 64-bit product that may wrap; bounds that need it not to say so.
- The header bytes keep only the lower 16 bits of the version, and blue work only up to a zero digit that makes its
  length even (`Header.PreimageDeterminesHeader`).

## Model

| member | source | states |
|---|---|---|
| VarDiff.StepEarned | src/cryptixstratum/share_handler.go:508-597 | every event keeps: paused means stage 0; at stage k the previous window has elapsed and its lower share bound was beaten |
| VarDiff.StagesAreEarned | src/cryptixstratum/share_handler.go:508-597 | in every run the stage is 0..6, and every window below it has elapsed and, short of 64-bit wrap-around, been beaten |
| VarDiff.TickKeepsSign | src/cryptixstratum/share_handler.go:551-595 | a retarget pass neither drives a positive difficulty to zero nor repairs a zero one: an unclamped branch has counted a share |
| VarDiff.DifficultyStaysPositive | src/cryptixstratum/share_handler.go:611-648 | after any history the difficulty is positive exactly when some setClientVardiff is part of it |
| VarDiff.StepBounds | src/cryptixstratum/share_handler.go:551-618 | a retarget pauses at stage 0, keeps the share count and multiplies the difficulty by a factor: in [0.1, 1-tol] for a lower retarget, at least the tolerance away from 1 for a cleared or final one, at least 1+tol for an upper one within its window |
| VarDiff.RetargetMeetsRate | src/cryptixstratum/share_handler.go:551-595 | at the new difficulty the work done so far is exactly the expected rate, except that the clamped step asks for more |
| VarDiff.SilentRetarget | src/cryptixstratum/share_handler.go:566-585 | a retarget leaves the difficulty unchanged if and only if the stage is not last, the window's cap is reached and the count is exactly on rate |
| VarDiff.SilentRetargetExists | src/cryptixstratum/share_handler.go:566-585 | 24 shares in two minutes at 12 a minute are such a retarget |
| VarDiff.TickReviewed | src/cryptixstratum/share_handler.go:525-597 | exactly when a pass acts: a running tracker is paused and rescaled if and only if it is at the last stage and its count 5% or more off rate, or before that a window cleared from the second on is off by its tolerance, the cap is reached, or the window is over at its floor; its stage rises if and only if its window is over and none of these holds; else nothing changes |
| VarDiff.CountsSinceStart | src/cryptixstratum/share_handler.go:611-648 | in every run a running tracker's start time is that of its last start and its count the shares since then, from 0 on |
| ShareStats.WorkStats.BreachedCleared | src/cryptixstratum/share_handler.go:551-563 | the loop finds out whether some window cleared from stage 1 on no longer holds |
| ShareStats.WorkStats.Retarget | src/cryptixstratum/share_handler.go:525-597 | the in-place retarget pass of one worker changes its tracker fields as `Reviewed` says, which is read from the fields alone, and nothing else |
| ShareStats.WorkStats.UpdateVarDiff | src/cryptixstratum/share_handler.go:611-618 | pauses, resets the stage, installs the new difficulty and returns the previous one |
| ShareStats.WorkStats.StartVarDiff | src/cryptixstratum/share_handler.go:620-625 | restarts a paused tracker with no shares; leaves a running one alone |
| ShareStats.StatsTable.RetargetAll | src/cryptixstratum/share_handler.go:515-597 | one pass of the vardiff thread ticks every entry exactly once, in any order |
| ShareStats.StatsTable.StartClientVardiff | src/cryptixstratum/share_handler.go:627-632 | restarts the tracker of the claimed entry only |
| ShareStats.StatsTable.GetClientVardiff | src/cryptixstratum/share_handler.go:634-639 | answers the claimed entry's difficulty and changes no tracker |
| ShareStats.StatsTable.SetClientVardiff | src/cryptixstratum/share_handler.go:641-648 | installs at least 0.00001, starts tracking and returns the previous difficulty |
| Handshake.EachRetargetDeliveredOnce | src/cryptixstratum/client_handler.go:108-174 | for any number of block jobs in flight and of channels opened, exactly: a client at rest is in step (tracked at its difficulty with a write of each decision tried once and in order, or paused with one different difficulty left) if and only if no second channel was opened, no two jobs clashed and no retarget was silent; and then it was told every decision once and in order if and only if every V1 difficulty write went through |
| Handshake.TrackedAsTold | src/cryptixstratum/client_handler.go:108-174 | an in-step client tracked at rest was told the decision it is tracked at if and only if the last difficulty write of the run went through |
| Handshake.StepKeeps | src/cryptixstratum/client_handler.go:108-174 | every clash-free step of a block job, channel opening, tick or share keeps at most one job changing the difficulty, and it changes it to the pending decision |
| Handshake.ClashDooms | src/cryptixstratum/client_handler.go:142-174 | from any clash-free state a clash leaves some decision tried out of order or bound to be tried twice |
| Handshake.ReopeningDooms | src/cryptixstratum/sv2_handler.go:75-120 | and so does every second channel opening |
| Handshake.DoomedStep | src/cryptixstratum/client_handler.go:142-174 | which no later step makes good while the client stays connected |
| Handshake.NextBlockResumes | src/cryptixstratum/client_handler.go:142-174 | the next block whose write goes through leaves a settled client tracked at the controller's difficulty and told everything decided, so tracking never stalls |
| Handshake.SilentRetargetEnters | src/cryptixstratum/share_handler.go:566-618 | right after a silent retarget a settled client is stalled |
| Handshake.SilentRetargetStalls | src/cryptixstratum/client_handler.go:149-174 | a stalled client stays stalled through all later blocks, ticks and shares, with any number of jobs in flight, until it disconnects or opens another channel: nothing is sent, tracking stays off |
| Handshake.OverlappingJobsMisdeliver | src/cryptixstratum/client_handler.go:108-174 | a run from the connection on in which two blocks in quick succession store one pending difficulty twice, and tracking resumes at one the client is never told |
| Handshake.LostWriteMisleads | src/cryptixstratum/client_handler.go:239-247 | a run from the connection on in which a lost first V1 write leaves a connected client tracked at a difficulty it was never told |
| Handshake.ReopenedValues | src/cryptixstratum/sv2_handler.go:75-120 | a second channel opened undisturbed at rest tells the client its old difficulty and tracks it at the minimum, the two being the same if and only if it stood at the minimum before |
| Handshake.ReopeningMisleads | src/cryptixstratum/sv2_handler.go:75-120 | a run in which a second channel opening leaves the client tracked at a difficulty other than the one it was last told |
| BlockFanOut.NewBlock | src/cryptixstratum/client_handler.go:109-190 | one client's block job: entry claimed, first difficulty, changed difficulty written and tracking restarted whether or not a V1 write goes through, job added unless an SV2 write failed |
| BlockFanOut.ServedAsInHandshake | src/cryptixstratum/client_handler.go:142-174 | the undisturbed job leaves and tells exactly what the interleaved steps do, also when its V1 write is lost |
| BlockFanOut.BlockSettles | src/cryptixstratum/client_handler.go:135-174 | the difficulty a block leaves the client at in pool and solo mode, at first contact and later; only an SV2 client whose changed difficulty cannot be written gets no job |
| BlockFanOut.BlockIsHeard | src/cryptixstratum/client_handler.go:135-174 | when its writes go through, a V1 client knows its difficulty after the block, except exactly at first contact in solo mode with a network difficulty of zero or the configured minimum |
| Ledger.ClaimKeepsTotal | src/cryptixstratum/share_handler.go:67-99 | finding, migrating or creating an entry moves no count, and the identity's key is then in the table |
| Ledger.ClaimedKey | src/cryptixstratum/share_handler.go:67-99 | only the identity's key and its remote address can be affected |
| Ledger.ClaimAgain | src/cryptixstratum/share_handler.go:67-99 | claiming twice is claiming once |
| Ledger.SharedKey | src/cryptixstratum/share_handler.go:163-171 | who shares an entry: exactly the workers of one name, the nameless connections of one wallet, those without either from one address, and a worker whose name spells another's key |
| Ledger.AuthorizingKeepsEntry | src/cryptixstratum/share_handler.go:67-99 | a connection that authorizes under an unused key takes its entry along, with all that was counted on it, and no other entry changes |
| ShareStats.StatsTable.GetCreateStats | src/cryptixstratum/share_handler.go:67-99 | the map of shared entries becomes the claimed table, no entry ever leaves it, and no two keys come to share one |
| ShareStats.StatsTable.AddShare | src/cryptixstratum/share_handler.go:398-403 | one accepted share raises worker, tracker and totals alike and touches no other entry |
| DupeHistory.ShareHistory.Track | src/cryptixstratum/share_handler.go:193-213 | answers true exactly for a tracked key; order stays without repeats, at most 2048 long, and the set is its elements |
| DupeHistory.DupeTable.TrackDupeShare | src/cryptixstratum/share_handler.go:184-213 | looks only at the worker's own history and changes no other worker's |
| DupeHistory.DupeTable.ClearClientDupeHistory | src/cryptixstratum/share_handler.go:246-252 | drops the histories under all three names of the connection and no others |
| DupeHistory.WindowOfHistory | src/cryptixstratum/share_handler.go:184-213 | the bounded window is exactly the last 2048 keys ever let through since the last clear |
| DupeHistory.LetThroughTwice | src/cryptixstratum/share_handler.go:184-252 | one key is let through twice only after a clear or 2048 other fresh keys |
| DupeHistory.KeptExactly | src/cryptixstratum/share_handler.go:184-252 | a key is recognised if and only if it was let through, not cleared since, and followed by fewer than 2048 other fresh keys |
| TipRace.TipRises | src/cryptixstratum/share_handler.go:215-227 | under any interleaving of loads and swaps the tip never falls and is the highest score published |
| TipRace.StaleForever | src/cryptixstratum/share_handler.go:228-233 | a stale verdict stays justified at every later time |
| TipRace.CurrentReachesTip | src/cryptixstratum/share_handler.go:215-233 | a share let through was within 8 of the tip it loaded, and the tip has reached it |
| TipRace.RetriesBounded | src/cryptixstratum/share_handler.go:215-227 | a thread's failed swaps are at most its score's lead over the tip it started from, since each one means the tip rose |
| TipRace.RunningProgresses | src/cryptixstratum/share_handler.go:215-233 | every scheduling of an unfinished thread makes one of its bounded operations |
| ShareHandler.ShareHandler.CheckTip | src/cryptixstratum/share_handler.go:215-233 | the loop, with others raising the tip at any point, ends and answers as one thread alone would from some tip no lower than at its start |
| ShareHandler.ShareHandler.CheckStales | src/cryptixstratum/share_handler.go:215-236 | a stale share enters no history; any other lifts the tip and has its key tracked |
| ShareHandler.ShareHandler.SubmitBlock | src/cryptixstratum/share_handler.go:407-445 | the node's answer books exactly one of block, stale and invalid, for worker and totals |
| ShareHandler.ShareHandler.ProcessSubmit | src/cryptixstratum/share_handler.go:341-405 | statistics, histories and tip after the whole in-place procedure are those of the judge on values |
| ShareHandler.ShareHandler.HandleSubmitSV2 | src/cryptixstratum/share_handler.go:283-303 | the same through the job ring for an SV2 id, a missing job counting as stale |
| ShareHandler.ShareHandler.HandleSubmit | src/cryptixstratum/share_handler.go:109-141 | the same for a V1 event: parameters, id text, missing job and nonce text in the code's order |
| V1Submits.MinersSubmit | src/cryptixstratum/share_handler.go:109-141 | from the miner's side: the submit of any signed 64-bit id that reaches a job and of any part y under extranonce x, with or without "0x", is judged as a share of that job with nonce x*16^(16-2s)+y |
| V1Submits.UnknownJobIsStale | src/cryptixstratum/share_handler.go:254-266 | an id that reaches no job is one stale share for worker and totals, whatever the third parameter is |
| V1Submits.NoTraceExactly | src/cryptixstratum/share_handler.go:254-281 | a V1 submit is answered Bad without a trace if and only if it has too few parameters, no 64-bit id, or for a live job no 64-bit hexadecimal nonce; every other one is judged |
| ShareRuns.OneMove | src/cryptixstratum/share_handler.go:341-405 | a share judged without error moves exactly one of shares, stale and invalid by one, for worker and totals alike, blocks with it if the node took it as one, and the worker's tracker and hash total if it was accepted; an error moves nothing; the unknown-error branch is unreachable |
| ShareRuns.StepSound | src/cryptixstratum/share_handler.go:67-99 | every event keeps the totals equal to the sums over the table and blocks within shares |
| ShareRuns.TotalsAreSums | src/cryptixstratum/share_handler.go:341-445 | so they are after any history, for every worker and for all |
| ShareRuns.HistoriesFollowOps | src/cryptixstratum/share_handler.go:184-252 | each worker's history is the one its own non-stale shares and disconnects spell out |
| Verdicts.TipIsHighest | src/cryptixstratum/share_handler.go:215-233 | after any history the tip is the highest blue score any share or other thread has shown |
| Verdicts.CheckedAlone | src/cryptixstratum/share_handler.go:215-233 | the judge's stale check gives the verdict and the tip of one thread of the lock-free loop run alone |
| Verdicts.JudgedExactly | src/cryptixstratum/share_handler.go:341-445 | each share of any history, one if-and-only-if per answer: stale for an unknown job or one more than 8 behind the highest score seen, duplicate for a repeat within 2048 fresh shares since the last clear, and else by its hash, the node having the last word on a block |
| ShareRuns.SameIdOnce | src/cryptixstratum/share_handler.go:215-252 | two accepted shares with one id and nonce are separated by a clear or 2048 other fresh shares |
| ShareRuns.SameJobOnce | src/cryptixstratum/mining_state.go:39-53 | the same for one job and nonce, for ids among the last 32 |
| ShareRuns.ClearedShareCountsAgain | src/cryptixstratum/share_handler.go:246-252 | the clear cannot be left out of either: a run in which the same share of the same recent job is accepted again after a disconnect |
| ShareRuns.AliasedIds | src/cryptixstratum/mining_state.go:48-53 | for all signed ids, the first reaching a job: both reach it under different keys if and only if they are a nonzero multiple of 32 apart and the second is not negative or is itself a multiple of 32 |
| ShareRuns.AliasAcceptedTwice | src/cryptixstratum/mining_state.go:48-53 | for every two ids that reach one job: a run in which one share is accepted under both |
| StatsRace.StepKeepsInv | src/cryptixstratum/share_handler.go:67-99 | with worker and total counted in separate atomic steps, every step keeps totals plus what is owed equal to the sums, and every entry under exactly one key |
| StatsRace.TotalsAtRest | src/cryptixstratum/share_handler.go:341-445 | once no submit is under way, totals equal the sums, count each submit's outcome once, and blocks are within shares, whatever interleaved or migrated |
| StatsAlone.AloneAsProcess | src/cryptixstratum/share_handler.go:341-445 | the atomic steps of one submit with nothing in between leave exactly the counts and totals that the judge of whole shares leaves |
| StatsEntries.EntryAtRest | src/cryptixstratum/share_handler.go:341-445 | in every run, once no submit is under way, each entry holds exactly what the submits have booked on it |
| StatsEntries.EntryBlocksWithinShares | src/cryptixstratum/share_handler.go:341-445 | then an entry has its blocks within its shares if and only if it received no more blocks of other entries' submits than it has plain shares and blocks given away |
| StatsEntries.OwnBlocksWithinShares | src/cryptixstratum/share_handler.go:407-445 | so every entry has, in any run in which the second claims of found blocks lead back to the entries claimed first |
| StatsEntries.BlockOnAnotherEntry | src/cryptixstratum/share_handler.go:407-445 | for any change of key that does not migrate the entry: a run that ends with a block and no share on one entry |
| StatsEntries.OwnEntries | src/cryptixstratum/share_handler.go:407-445 | every found block is booked on its own submit's entry if and only if every second claim of one has led back |
| StatsEntries.LeadsBack | src/cryptixstratum/share_handler.go:67-99 | in every run a second claim leads back if and only if the first entry's key, followed through all migrations since, is the identity's key, or its remote address while its key is unused |
| StatsEntries.KeyFollows | src/cryptixstratum/share_handler.go:67-99 | an entry is found under the key its migrations give it |
| MiningState.LookupIsLatestCongruent | src/cryptixstratum/mining_state.go:39-53 | after any jobs, an id reaches the latest job congruent to it mod 32, and none exactly when there is none |
| MiningState.RecentIdIsItsJob | src/cryptixstratum/mining_state.go:39-53 | the last 32 ids reach exactly their own jobs |
| MiningState.SameJobReached | src/cryptixstratum/mining_state.go:39-53 | for all signed ids, exactly when two of them reach the same job |
| MiningState.NegativeId | src/cryptixstratum/mining_state.go:48-53 | a negative id reaches a job only through slot 0, because the remainder keeps its sign |
| MiningState.MiningState.AddJob | src/cryptixstratum/mining_state.go:39-46 | the in-place ring holds, slot by slot, the newest job of that slot among all ever added |
| MiningState.MiningState.GetJob | src/cryptixstratum/mining_state.go:48-53 | answers what that history says |
| MiningState.MiningState.InitializeIfNeeded | src/cryptixstratum/mining_state.go:55-67 | only the first call sets difficulty and job form |
| MiningState.MiningState.SetStratumDiff | src/cryptixstratum/mining_state.go:76-85 | all three forms of the difficulty change together; the previous value is returned |
| Frames.FrameRoundTrip | src/cryptixstratum/sv2_codec.go:37-79 | a written frame is read back exactly when its payload is within the reader's limit; a larger one is refused with its length |
| Frames.FrameBytes | src/cryptixstratum/sv2_codec.go:68-79 | a frame is written up to 16777215 payload bytes, as two bytes of extension, the type, three of length and the payload |
| Frames.StreamRoundTrip | src/cryptixstratum/sv2_codec.go:37-79 | any list of readable frames, encoded back to back, decodes to exactly that list, whatever follows |
| Frames.TruncatedStream | src/cryptixstratum/sv2_codec.go:37-66 | a stream cut anywhere yields exactly its complete frames, then its end |
| Frames.PrefixedConn.Read | src/gostratum/stratum_listener.go:189-201 | hands out the put-back bytes first; nothing is lost, repeated or reordered |
| Frames.PrefixedConn.ReadFrame | src/cryptixstratum/sv2_codec.go:37-66 | whatever the pieces the bytes arrive in: the next frame, the oversized length, or that the stream ended or the connection failed before the frame was complete |
| Frames.Sniff | src/gostratum/stratum_listener.go:203-218 | looking at the first byte changes nothing about what will be read |
| Sv2Payloads.LayoutRoundTrip | src/cryptixstratum/sv2_codec.go:89-165 | for every layout, written values are read back and the bytes after them left alone |
| Sv2Payloads.TakenWasPut | src/cryptixstratum/sv2_codec.go:109-165 | only such a message followed by something is accepted |
| Sv2Payloads.Cursor.ReadFields | src/cryptixstratum/sv2_codec.go:109-165 | the in-place cursor reads field after field and stops at the first missing one |
| Sv2Payloads.SanitizedUnchanged | src/cryptixstratum/sv2_codec.go:97-107 | a string goes out unchanged exactly when printable and at most 255 long; sanitising twice is sanitising once |
| Sv2Payloads.SanitizedKeeps | src/cryptixstratum/sv2_codec.go:97-107 | character by character the printable ones are kept in order, the first 255 of them |
| Sv2Payloads.Buffer.PutStr | src/cryptixstratum/sv2_codec.go:97-107 | the loop appends length and the first 255 printable characters |
| Sv2Payloads.EncodeOpenChannelSuccess | src/cryptixstratum/sv2_codec.go:272-284 | the buffer steps give the message's layout, extranonce cut to 255 bytes |
| Sv2Payloads.EncodeSubmitError | src/cryptixstratum/sv2_codec.go:327-333 | the buffer steps give the message's layout |
| Sv2Payloads.EncodeSetTarget | src/cryptixstratum/sv2_codec.go:293-298 | the buffer steps give the message's layout |
| Sv2Payloads.EncodeNewMiningJob | src/cryptixstratum/sv2_codec.go:300-308 | the buffer steps give the message's layout, not a future job |
| Sv2Payloads.EncodeSetNewPrevHash | src/cryptixstratum/sv2_codec.go:310-318 | the buffer steps give the message's layout |
| Sv2Payloads.OpenSuccessBytes | src/cryptixstratum/sv2_codec.go:272-284 | read at its byte positions: request, channel, target, no extranonce, group 0 |
| Sv2Payloads.SubmitAnswerBytes | src/cryptixstratum/sv2_codec.go:320-333 | read at their byte positions: channel, sequence and the refusal text |
| Sv2Payloads.NewJobBytes | src/cryptixstratum/sv2_codec.go:300-308 | read at its byte positions: channel, job, no future job, version, pre-pow hash |
| Sv2Payloads.PrevHashBytes | src/cryptixstratum/sv2_codec.go:310-318 | read at its byte positions: channel, job, previous hash, time, bits |
| Sv2Payloads.SetTargetBytes | src/cryptixstratum/sv2_codec.go:293-298 | read at its byte positions: channel, target |
| Sv2Payloads.SetupRoundTrip | src/cryptixstratum/sv2_codec.go:167-209 | a set-up is read as its firmware name, else its vendor, else the default name |
| Sv2Payloads.OpenRoundTrip | src/cryptixstratum/sv2_codec.go:211-228 | an opening is read as its request id and name, whatever follows |
| Sv2Payloads.SubmitNeedsSixWords | src/cryptixstratum/sv2_codec.go:230-256 | a submit parses exactly from 24 bytes on; a shorter one is reported by its first missing word |
| Sv2Payloads.SubmitRoundTrip | src/cryptixstratum/sv2_codec.go:230-256 | a submit is read as it was written, whatever follows |
| Sv2Payloads.SubmitBytes | src/cryptixstratum/sv2_codec.go:230-256 | any payload of at least 24 bytes is six words in the order channel, sequence, job, nonce, time, version |
| Sv2Session.ChannelCounter.NextId | src/cryptixstratum/sv2_handler.go:105-108 | the n-th id from the wrapping counter is ((n-1) mod (2^32-1))+1, so never 0 |
| Sv2Session.IdsRepeat | src/cryptixstratum/sv2_handler.go:105-108 | two ids are equal exactly a multiple of 2^32-1 openings apart |
| Sv2Session.SessionSafety | src/cryptixstratum/sv2_handler.go:44-154 | for all frame sequences: no channel opens before a successful set-up, no share is judged except on the channel opened last |
| Sv2Openings.GreetedInOrder | src/cryptixstratum/sv2_handler.go:58-120 | decoded by the miner, each set-up and opening whose answer was written gets exactly one, in order, and no other frame does |
| Sv2Openings.SetupAnswered | src/cryptixstratum/sv2_handler.go:58-73 | a set-up in an open session is answered with success, lets channels open and names the miner's software |
| Sv2Openings.OpeningAnswered | src/cryptixstratum/sv2_handler.go:75-120 | in every session an opening is answered to its own request id: with success if and only if the miner has read a set-up success and its wallet is valid, naming then the channel just opened and the advertised target; a refusal ends the session |
| Sv2Openings.ShareReachesJudge | src/cryptixstratum/sv2_handler.go:122-136 | in every session a share reaches the judge if and only if its channel is the one of the last success the miner has read, with its own job and the 64-bit number whose low word is its nonce field and high word its time field |
| Sv2Openings.SessionGoesOn | src/cryptixstratum/sv2_handler.go:44-154 | an open session survives a frame if and only if its answer goes through and it is well formed, and an opening is granted; a wrong channel or a bad verdict ends nothing, and only a granted opening changes channel and identity |
| Sv2Replies.AnsweredInOrder | src/cryptixstratum/sv2_handler.go:122-149 | decoded by the miner, each submit whose answer was written gets exactly one, in order, with its own channel and sequence; success exactly when its channel is the session's and the judge accepted |
| Sv2Replies.RefusalMeans | src/cryptixstratum/sv2_handler.go:138-174 | the answer to a share on the session's channel tells which verdict it got, one text for each |
| Sv2Replies.RefusalTexts | src/cryptixstratum/sv2_handler.go:163-174 | every refusal text reaches the miner unchanged |
| Sv2Replies.RepliesDecode | src/cryptixstratum/sv2_codec.go:81-87 | the replies of any session, back to back, decode to exactly those replies |
| Sv2Shares.SuccessIsCounted | src/cryptixstratum/sv2_handler.go:122-149 | with the share handler as judge, the answer to a frame is a success exactly when judging raised the worker's share count and the answer could be written |
| Sv2Shares.SuccessesAreCounted | src/cryptixstratum/sv2_handler.go:122-149 | over a whole session the miner reads one success for each such share and no other |
| Sv2Handler.Connection.Open | src/cryptixstratum/sv2_handler.go:75-120 | the in-place channel opening: refusals in the code's order, identity and channel set before the reply |
| Sv2Handler.Connection.Share | src/cryptixstratum/sv2_handler.go:122-149 | the in-place submit branch |
| Sv2Handler.Connection.Serve | src/cryptixstratum/sv2_handler.go:44-154 | the frame loop over any byte pieces does exactly the run over the frames of the stream, and ends |
| Targets.DiffToTargetFalls | src/cryptixstratum/hasher.go:43-48 | a larger difficulty never gives a larger target |
| Targets.RoundTripDrift | src/cryptixstratum/hasher.go:43-56 | to target and back, exactly computed, never lowers a difficulty and raises it by less than one part in the target |
| Targets.TargetIsLargest | src/cryptixstratum/hasher.go:43-48 | exactly computed, the target is the largest whole number whose product with the difficulty stays within 2^224 |
| Targets.DiffToSV2TargetLE | src/cryptixstratum/sv2_codec.go:335-343 | the copy loop's 32 bytes spell the whole target of the clamped difficulty; nothing is cut off |
| Targets.AdvertisedNotAboveChecked | src/cryptixstratum/sv2_codec.go:335-343 | the advertised target is at most the checked one and equal from 0.00001 up |
| Sv2Shares.AdvertisedIsNeverLow | src/cryptixstratum/share_handler.go:369-396 | while the difficulty an SV2 miner was sent is current, a hash below that target is never judged low, and from 0.00001 up a share that reaches the hash test and is no block is judged low if and only if its hash is not below it |
| Targets.CompactTarget | src/cryptixstratum/hasher.go:163-179 | for every input the target is floor(mantissa * 256^exponent / 256^3) |
| Targets.CompactMonotone | src/cryptixstratum/hasher.go:163-179 | on normalised mantissas the bits order the targets, strictly from exponent 3 |
| Targets.NetworkDifficultyFalls | src/cryptixstratum/mining_state.go:69-74 | larger bits never mean a larger network difficulty |
| Header.Hasher.WriteParents | src/cryptixstratum/hasher.go:71-78 | the nested loops write counts and hashes of all levels in order |
| Header.Hasher.WriteBlueWork | src/cryptixstratum/hasher.go:102-114 | the padding loop makes the digits even; their bytes follow their length |
| Header.SerializeBlockHeader | src/cryptixstratum/hasher.go:66-121 | the result is the digest of the header's preimage, whose layout `PreimageReads` states |
| Header.PreimageReads | src/cryptixstratum/hasher.go:66-121 | a separate reader of the hashed bytes finds every field of the header in the protocol's order: version mod 2^16, parents by level, three roots, 0, bits, 0, DAA score, blue score, blue work behind its length, pruning point, and nothing after it |
| Header.PreimageDeterminesHeader | src/cryptixstratum/hasher.go:66-121 | two headers write the same bytes exactly when parents, roots, bits, scores, blue work, pruning point and the version mod 2^16 agree; time stamp and nonce do not matter |
| Header.PreimageDeterminesText | src/cryptixstratum/hasher.go:66-121 | in the node's own spelling this means equal fields, blue work up to one leading zero digit |
| JobWire.GenerateJobHeader | src/cryptixstratum/hasher.go:123-139 | the four words, each through its hexadecimal text, give the digest again |
| JobWire.WordsDetermine | src/cryptixstratum/hasher.go:123-139 | different words stand for different digests |
| JobWire.GenerateLargeJobParams | src/cryptixstratum/hasher.go:141-159 | always 80 digits: the digest's bytes and the time stamp's little-endian bytes |
| JobWire.LargeJobDetermines | src/cryptixstratum/hasher.go:141-159 | the text decodes to those bytes and determines digest and time stamp |
| Nonces.ExtranonceAllocator.OnConnect | src/cryptixstratum/client_handler.go:38-72 | the k-th connection gets k mod 256^size in exactly 2*size digits |
| Nonces.CompletedNonce | src/cryptixstratum/share_handler.go:305-321 | a miner's part y under extranonce x becomes x*16^(16-2s)+y |
| Nonces.MalformedNonce | src/cryptixstratum/share_handler.go:305-321 | a miner's part with any other character is refused |
| Nonces.RefusedNonce | src/cryptixstratum/share_handler.go:305-321 | a nonce text is refused if and only if it has a character that is no digit, stands for 2^64 or more, or is empty without an extranonce |
| Nonces.SpacesAreDisjoint | src/cryptixstratum/share_handler.go:305-321 | completed nonces are equal exactly when both extranonces and both parts are |
| Nonces.LongNoncesCollide | src/cryptixstratum/share_handler.go:305-321 | between any two different extranonces a nonce text that parses collides if and only if it has more digits than a miner's part |
| Nonces.LongNonceInOwnSpace | src/cryptixstratum/share_handler.go:305-321 | such a nonce lies in the connection's own space exactly when its leading digits spell the extranonce |
| Nonces.JobIdRoundTrip | src/cryptixstratum/share_handler.go:109-141 | the text of any signed 64-bit id, among them those sent with jobs, parses back to it |
| Nonces.ShareKeyInjective | src/cryptixstratum/share_handler.go:180-182 | different jobs or nonces never share a key |
| Nonces.SpellingDoesNotMatter | src/cryptixstratum/share_handler.go:254-281 | two spellings share a key exactly when they spell one value |
| WriteLock.MutualExclusion | src/gostratum/stratum_context.go:126-138 | in every interleaving at most one writer is between winning and releasing the lock, which is free exactly when none is |
| WriteLock.AtMostOneWrite | src/gostratum/stratum_context.go:140-157 | each write call issues at most one socket write and returns nil exactly when that one succeeded with the whole message |
| WriteLock.WireIsMessages | src/gostratum/stratum_context.go:126-138 | the wire is one stretch per writer that reached the socket, in lock order, each a prefix of its message and whole where the write succeeded |
| WriteLock.WireIntact | src/gostratum/stratum_context.go:126-138 | in every interleaving the wire holds whole messages and at most a cut last one if and only if no message was torn that the socket took anything after |
| WriteLock.FramesArriveWhole | src/gostratum/stratum_context.go:117-157 | goroutines writing frames concurrently: as long as no torn message is followed, the miner decodes exactly the frames the socket took whole, in lock order, whatever else is under way or failed; every successful write is among them |
| WriteLock.TornMessageIsFollowed | src/gostratum/stratum_context.go:126-138 | for any message cut by a failing socket, a run in which another whole message follows it |
| WriteLock.WritersFinish | src/gostratum/stratum_context.go:140-157 | whatever changes a writer brings it nearer its end |
| WriteLock.WriterEndsAlone | src/gostratum/stratum_context.go:126-157 | from any reachable state a writer left alone ends within as many steps as its rank, wherever the others stand |
| WriteLock.DisconnectedOnce | src/gostratum/stratum_context.go:190-205 | however many disconnects are called, at most one close and at most one event, after the close |
| WriteLock.DisconnectsClose | src/gostratum/stratum_context.go:190-205 | once all calls are over, the connection has been closed exactly once if any disconnect was called, and never otherwise |
| WriteEnds.BlockedAfterThree | src/gostratum/stratum_context.go:140-157 | a write call is given up as blocked if and only if it has found the lock taken three times, and none tries more often |
| WriteEnds.LateWriterGone | src/gostratum/stratum_context.go:117-122 | a call made once a disconnect has been won never reaches the socket, whatever happens later |
| WriteEnds.GoneMeansDisconnecting | src/gostratum/stratum_context.go:117-122 | only while the client is disconnecting is a call told so |
| WriteEnds.FailureDisconnects | src/gostratum/stratum_context.go:207-211 | once the disconnects under way are over, a failed write has closed the connection |
| WriteEnds.QueuedExactly | src/gostratum/stratum_context.go:190-205 | the disconnect event is queued if and only if the queue had room for it after the close |
| StratumContext.Context.WriteWithBackoff | src/gostratum/stratum_context.go:126-157 | one goroutine's loop under interference: three attempts at most, at most one socket write, and what was taken stands on the wire in one piece |
| StratumContext.Context.WriteRaw | src/gostratum/stratum_context.go:117-122 | after a disconnect nothing is written |
| StratumContext.Context.Disconnect | src/gostratum/stratum_context.go:190-205 | only the winning call closes and queues |

## Left out

- Node RPC, template polling, synchronisation and reconnecting (cryptixapi.go): network client code; templates and block answers are inputs.
- Counters for Prometheus, the console table, hashrate text and logging: output only.
- Configuration, listeners and goroutine start-up: wiring; the clamp of the extranonce size to 0..3 is a precondition of the allocator.
- JSON-RPC framing and marshalling, including the V1 replies: library code; a V1 submit starts at its parsed parameters.
- Proof of work, block conversion, block hash and the blake2b digest: parameters; the bytes given to the digest are modelled.
- Floating-point rounding in the controller: difficulties, times and ratios are exact reals; only big-float division in Targets has a rounding.
- Address and worker-name parsing at authorisation: foreign code; its outcome is part of a session's context.
- The list of clients, sendInitialDiff for clients not yet authorised, and balance queries around a new block.
- The n-bits hint and the previous-hash choice of sendSV2Job: only the encoders it calls are modelled.
- The solo difficulty shared through setSoloDiff: it feeds output only; in BlockFanOut the network difficulty is an input.
- Handshake.EachRetargetDeliveredOnce: is about pool mode and a worker whose tracking begins with the connection; a worker that reconnects, or connects twice, while its entry is still tracked is not covered. It assumes a minimum difficulty of at least 0.0001 and that an SV2 client's blocks start once it is initialised.
- Handshake.StepKeeps: takes a retarget pass, a setClientVardiff and a restart as one step each; the code's unsynchronised writes of single fields within them are not modelled.
- Handshake.SilentRetargetStalls: says nothing about an SV2 client that opens another channel, which restarts tracking.
- BlockFanOut.NewBlock: models one client's job without interference; interleavings are in Handshake.
- ShareHandler.ShareHandler.ProcessSubmit: other goroutines interfere with the tip only; interleaved counting is in StatsRace, and two connections judging under one worker key at once are not modelled.
- StatsRace.TotalsAtRest: leaves the trackers and hash totals of the entries out; they are in ShareStats.
- Sv2Handler.Connection.Serve: the advertised target and the judge's verdict come with each frame's context; Sv2Shares ties them to the share handler and its targets. Jobs written to the same socket meanwhile are in WriteLock.
- StratumContext.Context.WriteWithBackoff: the guarantee of the other goroutines is its assumption; WriteLock proves it for every interleaving.
- Write deadlines and the pause between attempts: a deadline either can be set or cannot, and time does not matter.
