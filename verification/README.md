# tastytrade-cli: verified models of the order and position pipeline

`tt` submits live option and equity orders to a broker and keeps a local picture of positions while it
runs. This project models the parts of it whose behaviour is hard to see from one function at a time, and
proves what they keep:

- **Live submission across crashes** (`SubmitIdentities`, `RegistryLaws`, `HttpRetry`, `SubmitProtocol`,
  `PreSubmitPolicy`, `SubmitCommand`, `SubmitRuns`). The registry of submit identities is a class over a state
  file; its operations are also given as relations over memory and file under any read or write fault. A
  transition system then lets a process die at any step, restart, and clear records. `RunSubmit` is shown to be a
  path of that system that reserves the identity of the order given and whose sends are exactly the HTTP requests
  it makes; `SubmitRuns` then says what the system's theorems mean for those requests.
- **The book and the reconciler** (`MarkBook`, `Reconciler`, `ReconcilerRuns`, `AbsenceProtocol`). The book's
  maps are caches of a history. A reconciler pass is one judgement for each symbol, whatever order the maps are
  walked in; `AbsenceProtocol` interleaves the steps of passes with the streamer.
- **Bus and shutdown** (`Bus`, `BusProtocol`, `Shutdown`). The broker as a class, and the same code as steps of
  one lock, channel or counter operation; then streamers, buses, consumers, reconciler, wait group and store.
- **Circuit breaker, watchdog, comparison, symbols, drop warnings** (`CircuitBreaker`, `MarketStreamer`,
  `WatchdogProtocol`, `OrderComparison`, `ComparisonLaws`, `MarketSymbol`, `DropHandler`).
- `Common` and `Ordering` hold vocabulary: optional values, white space, sorting.

Where Go ranges over a map or sorts with an unstable sort, the model picks any element or states only that the
result is a sorted permutation, and a lemma shows that the output is nevertheless determined. Time is an
integer, decimals are reals, SHA-256 is any function of the text, and every reply of the network, the file
system, the clock and the operator is a parameter. Where a method is proved against a specification function,
lemmas such as `AllowedMeans` say what that function amounts to in plain fields and numbers, and for each transition
system lemmas say what its runs include.

## Where code and documentation disagree

- The circuit breaker's comment (`internal/client/circuit_breaker.go:9`) promises a limit over a rolling window.
  The window tumbles: a span as long as the window may hold twice the limit, and never more
  (`CircuitBreaker.SpanHoldsAtMostTwice`, `CircuitBreaker.TwiceIsReached`). The promise is kept exactly by a breaker
  that allows nothing or whose window has no length (`CircuitBreaker.RollingLimitIff`), and by every breaker over
  any span in which no window opens (`CircuitBreaker.SpanWithoutOpening`).
- Design constraint 4 of the reconciler (`internal/reconciler/reconciler.go:24-27`) says an update the streamer made
  after the fetch began is left intact. An open entry is left intact exactly when, if REST lists the symbol, its
  cost basis is not zero, and, if REST does not, this absence stays below the threshold; the sweep looks at neither
  load time nor basis (`ReconcilerRuns.NewerEntryKeptIff`). A close is left intact exactly when REST does not list
  the symbol (`ReconcilerRuns.CloseKeptIff`). The position consumer always loads a zero basis
  (`ReconcilerRuns.StreamerLoadDuringFetchIsReplaced`, `ReconcilerRuns.StreamerLoadDuringFetchIsRemoved`).
- The comment on `isStale` (`internal/streamer/market.go:162-171`) says a stale connection received no quote for the
  timeout. At a forced reconnect that is so exactly when no younger quote is held by the dispatcher, still queued, or
  was dropped from a full queue (`WatchdogProtocol.NoQuoteReceivedIff`, `WatchdogProtocol.UndispatchedIsOverlooked`).
- The outcome filter of `submit-state compare` is validated after trimming but applied as typed
  (`cmd/submit_state_compare.go:326-346`), so an accepted filter with white space around it shows nothing
  (`ComparisonLaws.FilterNeedsExactText`).

Two more findings, where nothing is promised: the text whose digest is an identity's key
(`cmd/submit_idempotency.go:89-101`) tells identities apart when account and hash hold no NUL, and otherwise need
not (`SubmitIdentities.RawIdentityInjective`, `SubmitIdentities.RawIdentityAmbiguousWithNul`); and the reconciler
repairs cost basis and presence only, never a quantity (`ReconcilerRuns.QuantityDriftStays`).

## Model

| member | source | states |
|---|---|---|
| `SubmitIdentities.DeriveSubmitIdentity` | cmd/submit_idempotency.go:89-101 | An identity is derived unless a part is blank, and holds the three parts as given. |
| `SubmitIdentities.RawIdentityInjective` | cmd/submit_idempotency.go:93-94 | Without NUL in account and hash, equal digested texts have equal account, intent and hash, whatever the intent contains. |
| `SubmitIdentities.RawIdentityAmbiguousWithNul` | cmd/submit_idempotency.go:93-94 | With a NUL in the account, two different triples have the same text. |
| `SubmitIdentities.KeysSeparateIdentities` | cmd/submit_idempotency.go:89-101 | When the digest does not collide on two texts, keys are equal exactly when the triples are. |
| `SubmitIdentities.FirstBad` | cmd/submit_idempotency.go:146-153 | The loader accepts exactly the records before the first incomplete one or one of unknown state. |
| `SubmitIdentities.SaveThenLoad` | cmd/submit_idempotency.go:107-178 | Writing the records in any map order and loading the file in a fresh process gives the same records, certain. |
| `SubmitIdentities.FreshLoadIsView` | cmd/submit_idempotency.go:107-156 | A fresh process ends certain exactly when the read works and the file is absent or a well-formed document, and then holds what the file says. |
| `SubmitIdentities.ViewWellFormed` | cmd/submit_idempotency.go:146-153 | Everything loaded is complete, of a known state, and filed under its own key. |
| `SubmitIdentities.ViewMeans` | cmd/submit_idempotency.go:138-153 | A document is read exactly when its version is 1 and every record has its four identity fields and one of the two states; of records with one key the last counts, and nothing else is read. |
| `SubmitIdentities.LoadedIsKept` | cmd/submit_idempotency.go:107-114 | A process that has loaded never reads the file again. |
| `SubmitIdentities.Registry.EnsureLoaded` | cmd/submit_idempotency.go:107-156 | Reads the file at most once; a failed read, unparseable file, wrong version or bad record leaves the process loaded and uncertain. |
| `SubmitIdentities.Registry.SaveLocked` | cmd/submit_idempotency.go:158-178 | Success means the file lists exactly the records, under version 1; failure leaves it as it was, unreadable, or so written, as the fault is. |
| `SubmitIdentities.Registry.Reserve` | cmd/submit_idempotency.go:180-219 | Succeeds exactly when the save works, the records are certain, the identity is complete, its key unused, and its account and order not in flight; says which rule refused it; a failed save takes the record back and makes the process uncertain. |
| `SubmitIdentities.MayReserveMeans` | cmd/submit_idempotency.go:180-209 | What a grant needs, in the fields of identity and records. |
| `SubmitIdentities.ReserveReasonsMean` | cmd/submit_idempotency.go:180-219 | What each reason of a refused reservation means. |
| `SubmitIdentities.Registry.FindsInFlight` | cmd/submit_idempotency.go:205-209 | Some record in flight has the same account and order hash, in whatever order the map is walked. |
| `SubmitIdentities.Registry.EnterInFlight` | cmd/submit_idempotency.go:211-219 | Enters one record and saves; when that fails the records are as before and the process is uncertain. |
| `SubmitIdentities.Registry.MarkSubmitted` | cmd/submit_idempotency.go:221-247 | Succeeds exactly when the save works, the records are certain and hold the identical identity, and then only its state and update time change; a failed save leaves memory marked and uncertain. |
| `SubmitIdentities.MarkReasonsMean` | cmd/submit_idempotency.go:221-247 | What each reason of a refused mark means. |
| `SubmitIdentities.Registry.Clear` | cmd/submit_idempotency.go:266-284 | Succeeds exactly when the save works and the records are certain and hold the key, and then exactly that record is gone from memory and file; otherwise says why not. |
| `SubmitIdentities.ClearReasonsMean` | cmd/submit_idempotency.go:266-284 | What each reason of a refused clear means. |
| `SubmitIdentities.Registry.Inspect` | cmd/submit_idempotency.go:249-264 | Lists every record once, in key order, and only when the records are certain. |
| `RegistryLaws.OperationStep` | cmd/submit_idempotency.go:107-284 | Under any fault each operation keeps memory and file in agreement and leaves the file as it was, unreadable, or changed by exactly its own permitted effect; an allowed operation leaves that effect. |
| `RegistryLaws.GrantedRecord` | cmd/submit_idempotency.go:211-218 | A granted reservation adds one record, in flight and dated now, and leaves every other on file as it was. |
| `RegistryLaws.MarkedRecord` | cmd/submit_idempotency.go:236-246 | A mark changes state and update time of the one record and nothing else on file. |
| `RegistryLaws.ClearedRecord` | cmd/submit_idempotency.go:275-283 | A clear takes the one record off the file and leaves every other. |
| `RegistryLaws.UncertainIsFinal` | cmd/submit_idempotency.go:180-284 | Once uncertain, a process is refused everything and changes neither memory nor file. |
| `RegistryLaws.RefusedLoadIsUncertain` | cmd/submit_idempotency.go:107-156 | A load that cannot be used leaves the process uncertain for good. |
| `RegistryLaws.OneInFlightKept` | cmd/submit_idempotency.go:180-219 | At most one record in flight for each account and order hash is kept by every operation. |
| `RegistryLaws.RecordsOnlyAdvance` | cmd/submit_idempotency.go:180-284 | A record on file leaves only by a clear of its key; its identity and creation time never change, and its state only goes to submitted. |
| `RegistryLaws.StateNeverGoesBack` | cmd/submit_idempotency.go:221-247 | A submitted record that is still on file is still submitted. |
| `RegistryLaws.KeyClashRefused` | cmd/submit_idempotency.go:191-203 | When two identities share a key, the second is refused and the first stays, on file and in memory. |
| `HttpRetry.Client.Do` | internal/client/client.go:219-381 | For every sequence of replies: as many sends as they ask for, at most three, all with one idempotency key, with exactly the headers the loop sets; at most one forced refresh; the outcome is that of the last reply. |
| `HttpRetry.RetryableMeans` | internal/client/client.go:291-378 | A reply asks for another attempt exactly when it is a network error, 429, 500, 502, 503, 504, or the first 401 of an authenticated call with a successful refresh. |
| `HttpRetry.VerdictMeans` | internal/client/client.go:291-381 | What each outcome says about the last reply and about an earlier 401. |
| `HttpRetry.AttemptsMeans` | internal/client/client.go:267-271 | One, two or three attempts, and which replies make it so. |
| `HttpRetry.TokenMeans` | internal/client/client.go:320-336 | After a 401 that forced a refresh every send carries the refreshed token; before, the first. |
| `HttpRetry.Client.HandleReply` | internal/client/client.go:291-378 | One reply goes round again or stops as its status, the attempt number and an earlier refresh decide; only a refreshed token changes the headers. |
| `HttpRetry.Client.InjectHeaders` | internal/client/client.go:249-263 | Sets the token on authenticated calls and the key on order writes, and no other header of the two. |
| `HttpRetry.StepsAreTheLoop` | internal/client/client.go:271-381 | Handling the replies one at a time goes round, and stops, exactly as the loop does. |
| `HttpRetry.AttemptsUnique` | internal/client/client.go:271-381 | The replies fix the number of attempts. |
| `SubmitProtocol.UnsettledStaysOnFile` | cmd/submit_idempotency.go:107-284 | In every run with crashes, faults, restarts and clears, a transmission neither acked nor taken off the file by a clear is still in flight on file, or the file cannot be read. |
| `SubmitProtocol.SecondReservationRefused` | cmd/submit_idempotency.go:180-219 | In every run, while such a transmission exists, no process gets a reservation for the same account and order. |
| `SubmitProtocol.NoSecondTransmission` | cmd/orders.go:218-242 | In every run, between a send and a later grant for the same account and order lies the broker's ack of that send or a clear that took its record off the file. |
| `SubmitProtocol.EverySendIsReserved` | cmd/orders.go:218-238 | In every run, at every HTTP send the file holds, in flight, exactly the identity being sent, and its intent is the idempotency key. |
| `SubmitProtocol.GrantBoundsSends` | internal/client/client.go:245-381 | In every run, one grant causes at most three sends, all of its identity and key, and at most one forced refresh. |
| `SubmitProtocol.CallIsPath` | internal/client/client.go:271-381 | The attempts of one HTTP call are a path of the protocol, one send of the reserved identity under the one key for each, ending as the call's outcome says. |
| `SubmitProtocol.ProcessesComeAndGo` | cmd/submit_idempotency.go:68-87 | The runs include starting a process on any file and killing it at any point. |
| `SubmitProtocol.DiesInOperation` | cmd/submit_idempotency.go:180-284 | They include dying in any operation, after any of its effects on the file. |
| `SubmitProtocol.SavesTear` | cmd/submit_idempotency.go:158-178 | Those effects include, for every operation that reaches its save, the old file, an unreadable one, and the new one. |
| `SubmitProtocol.AnyReplyCanCome` | internal/client/client.go:271-381 | They include every reply to every send. |
| `SubmitProtocol.RunThenPath` | cmd/orders.go:140-246 | A run that reaches where a path begins goes on along it. |
| `PreSubmitPolicy.Evaluate` | cmd/pre_submit_policy.go:126-237 | Allows exactly when every required condition holds; otherwise gives exactly the reasons that apply, each once. |
| `PreSubmitPolicy.AllowedIffPermitted` | cmd/pre_submit_policy.go:126-237 | No reason applies exactly when account, intent and payload agree throughout and approval, confirmation and check come in that order within 120 seconds of the approval. |
| `PreSubmitPolicy.SettingsReasonsMean` | cmd/pre_submit_policy.go:146-157 | When live trading, context and account are reasons. |
| `PreSubmitPolicy.RuntimeReasonsMean` | cmd/pre_submit_policy.go:158-169 | When transport, safety and the two answers of the gate are reasons. |
| `PreSubmitPolicy.PresenceReasonsMean` | cmd/pre_submit_policy.go:171-212 | When a missing approval, a missing or a declined confirmation is a reason. |
| `PreSubmitPolicy.MismatchReasonsMean` | cmd/pre_submit_policy.go:177-232 | Account, intent and payload are reasons exactly when input, approval and confirmation do not all agree, or the order no longer has the hash. |
| `PreSubmitPolicy.UnknownStateMeans` | cmd/pre_submit_policy.go:154-230 | When a blank field or an order without a hash is a reason. |
| `PreSubmitPolicy.EachTimeReasonMeans` | cmd/pre_submit_policy.go:185-226 | When expiry and invalid times are reasons, at 120 seconds. |
| `PreSubmitPolicy.NoConfigMeans` | cmd/pre_submit_policy.go:137-145 | Without a configuration only that and a zero clock are reasons. |
| `PreSubmitPolicy.FreshnessMeans` | cmd/pre_submit_policy.go:239-252 | Which times read missing, invalid, expired or fresh, and the age in whole seconds. |
| `PreSubmitPolicy.LoadedLiveMeans` | config/config.go:130-173 | Live trading needs the setting, the production host in the URL, and no certification host. |
| `PreSubmitPolicy.Deny` | cmd/pre_submit_policy.go:128-135 | A reason is recorded once, however often it is found. |
| `PreSubmitPolicy.PermittedReadsFresh` | cmd/pre_submit_policy.go:239-252 | What is allowed reads fresh in both diagnostics. |
| `PreSubmitPolicy.ExpiryAgreesWithDiagnostics` | cmd/pre_submit_policy.go:186-222 | The policy denies for expiry exactly when the diagnostic reads expired. |
| `SubmitCommand.ReasonsTheCommandCanMeet` | cmd/orders.go:177-191 | For the inputs the command builds from a loaded configuration and a clock that does not run backwards, only six reasons can deny, and a confirmation expires only after its approval. |
| `SubmitCommand.PolicyDenies` | cmd/orders.go:167-191 | What the command hands to the policy is denied for exactly the reasons that its own account, configuration, gate, transport, order and clock readings give. |
| `SubmitCommand.PolicyPasses` | cmd/orders.go:167-191 | And passes exactly when all of those are in order and the check comes within 120 seconds of the approval. |
| `SubmitCommand.Checks` | cmd/orders.go:140-216 | Nothing is refused exactly when account, live and production settings, safety, both gate readings, order file, acknowledgement, transport, intent, hash and times are in order; a refusal names the first check that failed. |
| `SubmitCommand.Confirm` | cmd/orders.go:424-472 | The order is confirmed exactly by `--yes` in JSON mode, or by a line that is the word in any case between white space. |
| `SubmitCommand.TrimsToSubmit` | cmd/orders.go:462-466 | Lower-casing and trimming find the word exactly in the lines that are the word, in any case, between white space. |
| `SubmitCommand.RunSubmit` | cmd/orders.go:140-246 | One invocation is a path of the protocol that reserves the identity of its account, intent and order exactly when every one of those conditions holds; its requests all carry that account, that order and that intent as key, and are the path's sends; a refusal names the first failed check, a policy denial exactly the reasons that apply; it marks exactly after a 200 or 201 that parses, and reports success when nothing fails. |
| `SubmitCommand.ReserveAndSend` | cmd/orders.go:218-246 | The identity given is what is reserved; refused, it sends nothing and reports the registry's reason; granted, its requests are the path's sends of that identity. |
| `SubmitCommand.SendAndMark` | cmd/orders.go:238-246 | With the reservation held, the requests made continue the path as sends of its identity, and the mark of that identity ends it, allowed when success is reported and refused when that is denied. |
| `SubmitCommand.Transmit` | internal/exchange/tastytrade/tastytrade.go:279-309 | As many requests as the replies ask for, each for the account, with the order as body and the key given. |
| `SubmitRuns.EveryTransmissionIsReserved` | cmd/orders.go:167-242 | In every run, at each HTTP request the command makes, the file holds, in flight, a record with the request's account, the hash of its body, and its key as intent. |
| `SubmitRuns.SecondSubmitNeedsSettling` | cmd/orders.go:140-246 | When two invocations in one run, with anything between, both make requests for the same account and order, the broker acked the first one's or a clear took its record off the file before the second began. |
| `SubmitRuns.SuccessIsOnFile` | cmd/orders.go:242-246 | When the command reports success, the file has its record as submitted, updated at the mark. |
| `MarkBook.Book.LoadPosition` | internal/valuation/book.go:127-143 | Replaces the symbol's position and touches nothing else. |
| `MarkBook.Book.ApplyQuote` | internal/valuation/book.go:149-168 | Returns the snapshot that the history with this quote determines. |
| `MarkBook.Book.RemovePosition` | internal/valuation/book.go:279-284 | Forgets the symbol's position and quote, and nothing else. |
| `MarkBook.Book.SnapshotLocked` | internal/valuation/book.go:213-255 | The snapshot is the one computed from the last load and last quote since the last removal. |
| `MarkBook.SnapshotShows` | internal/valuation/book.go:213-237 | A snapshot shows position and quote field by field; without a quote the mark is stale and zero. |
| `MarkBook.ProfitIsLinear` | internal/valuation/book.go:239-265 | A long position has gained nothing at its open price and gains its quantity with each unit of the mark, a hundredfold for a symbol that begins with a point. |
| `MarkBook.NoProfitWithout` | internal/valuation/book.go:239-252 | No profit shows without position, live quote and a quantity that is a non-zero decimal. |
| `MarkBook.MultiplierMeans` | internal/valuation/book.go:260-265 | A symbol that begins with a point counts a hundredfold. |
| `MarkBook.Book.AllSnapshots` | internal/valuation/book.go:180-197 | Every live symbol once, each with the snapshot its history determines. |
| `MarkBook.PositionIsLastLoad` | internal/valuation/book.go:127-143 | A position is held exactly when a load of it has no later load or removal of the symbol. |
| `MarkBook.QuoteIsLastQuote` | internal/valuation/book.go:149-168 | The quote held is the last with no later removal of the symbol. |
| `MarkBook.LoadAndQuoteCommute` | internal/valuation/book.go:127-168 | A load and a quote, of any symbols, may come in either order. |
| `MarkBook.OtherSymbolsDoNotShow` | internal/valuation/book.go:213-255 | Operations on other symbols never show. |
| `MarkBook.ShortNegatesLong` | internal/valuation/book.go:239-252 | Turning a long position short negates its profit and loss and nothing else. |
| `Reconciler.Reconciler.constructor` | internal/reconciler/reconciler.go:221-243 | A threshold that is not positive becomes two; no absence is counted and no result is there yet. |
| `Reconciler.AddMismatch` | internal/reconciler/reconciler.go:171-175 | Count, category totals and list stay in agreement. |
| `Reconciler.Reconciler.Repair` | internal/reconciler/reconciler.go:331-368 | A REST symbol is loaded when missing or drifted, and left alone when newer with a basis; no other symbol is touched. |
| `Reconciler.Reconciler.RestStep` | internal/reconciler/reconciler.go:331-374 | That, with its absences forgotten and its row recorded. |
| `Reconciler.Reconciler.SweepStep` | internal/reconciler/reconciler.go:387-396 | An absence is counted; at the threshold the symbol is removed with its quote and count. |
| `Reconciler.Reconciler.RestLoop` | internal/reconciler/reconciler.go:331-374 | In any map order the loop does to each REST symbol what that symbol's verdict says, once, and one row for each. |
| `Reconciler.Reconciler.Sweep` | internal/reconciler/reconciler.go:376-397 | In any order the sweep settles every other symbol, and counts the symbols open before it. |
| `Reconciler.Reconciler.RunOnce` | internal/reconciler/reconciler.go:282-441 | A failed fetch changes nothing but the latest result. A pass settles every symbol by its verdict, reports each mismatch once, and writes one row for each distinct REST symbol; its status is partial exactly when a row was not written, else drift exactly when a mismatch is listed, else ok; recovery is triggered exactly when one is listed; none is listed exactly when book and list agree, and ok means the book is as it was. |
| `Reconciler.FoundNothingMeans` | internal/reconciler/reconciler.go:331-397 | No mismatch is reported exactly when each REST symbol is open with the right or a newer basis and each open symbol is in the list; then no position changes. |
| `Reconciler.MismatchMeans` | internal/reconciler/reconciler.go:340-396 | Which category and action is reported for which symbol. |
| `Reconciler.AbsencesMean` | internal/reconciler/reconciler.go:370-397 | A symbol's absences after a pass: none once listed or removed, one more while open and unlisted, else as before. |
| `Reconciler.LoadedMeans` | internal/reconciler/reconciler.go:332-366 | What a pass loads is the list's position, with its open price, or its close price when that is zero. |
| `Reconciler.RowMeans` | internal/reconciler/reconciler.go:487-512 | A row is made of one list entry and dated by the fetch. |
| `Reconciler.RestMapMeans` | internal/reconciler/reconciler.go:324-327 | Of several list entries for a symbol the last counts. |
| `Reconciler.Reconciler.LatestResult` | internal/reconciler/reconciler.go:270-277 | What the most recent pass returned, failed or not, and nothing before the first. |
| `ReconcilerRuns.PassIsDetermined` | internal/reconciler/reconciler.go:324-422 | Two passes over the same list from the same state leave the same book up to load times, the same counts and the same mismatches. |
| `ReconcilerRuns.RestSymbolsRepaired` | internal/reconciler/reconciler.go:331-374 | After a pass each REST symbol is open with the effective basis, except exactly the newer entries with a basis, which are untouched. |
| `ReconcilerRuns.QuantityDriftStays` | internal/reconciler/reconciler.go:359-368 | A different quantity at an equal non-zero basis is not repaired. |
| `ReconcilerRuns.NewerEntryKeptIff` | internal/reconciler/reconciler.go:24-27 | An open entry loaded at or after the fetch is left as it is exactly when, if REST lists it, its basis is not zero, and if not, this absence stays below the threshold; otherwise it is replaced by the fetched position or removed. |
| `ReconcilerRuns.CloseKeptIff` | internal/reconciler/reconciler.go:24-27 | A symbol the streamer closed stays closed exactly when REST does not list it. |
| `ReconcilerRuns.StreamerLoadDuringFetchIsReplaced` | cmd/root.go:370-378 | A concrete position the streamer loads during the fetch and the pass replaces. |
| `ReconcilerRuns.StreamerLoadDuringFetchIsRemoved` | internal/reconciler/reconciler.go:387-392 | A concrete position the streamer loads during the fetch and the sweep removes, whatever its basis. |
| `ReconcilerRuns.AbsencesUsedUp` | internal/reconciler/reconciler.go:387-396 | In a chain of passes, a book-only symbol still open has used one of its threshold in each. |
| `ReconcilerRuns.DriftDiesOut` | internal/reconciler/reconciler.go:331-410 | With an unchanging list of non-zero bases and a quiet streamer, every pass from threshold plus one on finds nothing. |
| `AbsenceProtocol.CountsBetweenPasses` | internal/reconciler/reconciler.go:376-397 | In every interleaving with the streamer, between passes each count lies strictly between zero and the threshold. |
| `AbsenceProtocol.RemovedOnlyIfAbsent` | internal/reconciler/reconciler.go:296-397 | In every interleaving, a pass removes a symbol only if the list lacked it in each of the last threshold passes. |
| `AbsenceProtocol.AbsentIsRemoved` | internal/reconciler/reconciler.go:376-397 | Threshold passes in a row that lack a symbol they find open remove it in one of them. |
| `AbsenceProtocol.UninterruptedPass` | internal/reconciler/reconciler.go:282-441 | Steps that nothing interrupts add up to the pass of `RunOnce`. |
| `AbsenceProtocol.StreamerAndFetchesAreFree` | internal/reconciler/reconciler.go:296-320 | The runs include streamer loads and closes at any point, during a pass too, and any fetch between passes. |
| `AbsenceProtocol.PassGoesOn` | internal/reconciler/reconciler.go:331-397 | They include every order of the symbols, and every pass can be finished. |
| `Bus.Channel.TrySend` | internal/bus/bus.go:93-101 | The event goes to a receiver that waits, or into the buffer, or is missed when there is neither; never on a closed channel. |
| `Bus.Channel.Receive` | internal/bus/bus.go:23-28 | Events come out in order; the loop ends only on a closed channel that is empty, and otherwise waits. |
| `Bus.Broker.Subscribe` | internal/bus/bus.go:67-79 | A new channel joins an open bus; on a closed one the caller gets a closed channel of its own. |
| `Bus.Broker.Publish` | internal/bus/bus.go:86-103 | Channel by channel: a waiting receiver gets the event, else it is buffered last if there is room, else missed; the counter stays what all missed together, and a closed bus does nothing. |
| `Bus.Broker.Drops` | internal/bus/bus.go:107-109 | The sum of what each subscriber missed since the broker was made. |
| `Bus.OfferedMissed` | internal/bus/bus.go:92-102 | One publish adds to that sum one for each full subscriber. |
| `Bus.Broker.Close` | internal/bus/bus.go:114-124 | Every channel is closed with nobody waiting on it, and keeps what is buffered in it and what was taken from it; closing again changes nothing. |
| `Bus.Drain` | internal/bus/bus.go:23-28 | On a closed channel a range loop yields exactly what was buffered, in order, and ends. |
| `BusProtocol.NeverPanics` | internal/bus/bus.go:67-124 | In every interleaving no step sends on a closed channel or closes one twice. |
| `BusProtocol.EventsAccountedFor` | internal/bus/bus.go:86-109 | In every run with no publisher under way, events published since a subscription are exactly those received, buffered or dropped, and the counter is the sum of the drops. |
| `BusProtocol.ConservedKept` | internal/bus/bus.go:86-103 | Mid-publish too: an event published is received, buffered, dropped or on its way, once. |
| `BusProtocol.DropsCountedKept` | internal/bus/bus.go:93-109 | The counter plus the drops not yet counted is always the sum of the subscribers' drops. |
| `BusProtocol.StreamsStayInOrder` | internal/bus/bus.go:86-103 | What a consumer gets is a selection of each publisher's stream, in that publisher's order. |
| `BusProtocol.OthersUnaffected` | internal/bus/bus.go:86-103 | Take one subscriber away, and everything else on the bus goes as in some run of the smaller bus, whatever that subscriber did. |
| `BusProtocol.UninterruptedPublish` | internal/bus/bus.go:86-103 | A publish that nothing interleaves with leaves every channel and the counter as `Bus.Broker.Publish` does. |
| `BusProtocol.UninterruptedClose` | internal/bus/bus.go:114-124 | A close that nothing interleaves with closes every channel and changes nothing else. |
| `BusProtocol.ReceiveTakesFirst` | internal/bus/bus.go:23-28 | A consumer takes the first event of any channel that holds one, closed or not. |
| `BusProtocol.WhoMayEnter` | internal/bus/bus.go:67-117 | The runs include publishers entering an open bus in any number, and subscriptions and the close whenever nobody is inside. |
| `Shutdown.StoreClosesLast` | cmd/root.go:207-243 | In every interleaving no write reaches a closed store, no account event finds its bus closed, and once the store is closed every event a bus accepted has been handled, in order. |
| `Shutdown.WaitGroupStep` | cmd/root.go:173-201 | Each step keeps the wait group equal to the number of consumers and reconciler still running. |
| `Shutdown.SomethingMoves` | cmd/root.go:207-243 | After a cancel and until shutdown has finished, some step is possible. |
| `Shutdown.ShutdownFinishes` | cmd/root.go:207-243 | After a cancel every run is bounded by the work then left, and one that can go no further has closed the store and signalled. |
| `Shutdown.AcceptIsOffer` | internal/bus/bus.go:92-102 | A bus takes an event exactly when there is room, as the broker's channel does. |
| `Shutdown.AnythingMayArrive` | cmd/root.go:160-199 | The runs include any event on any open bus and a pass at any tick, until the cancel. |
| `CircuitBreaker.Breaker.Allow` | internal/client/circuit_breaker.go:34-60 | State and answer follow the counter, the window it may reopen, and the latch. |
| `CircuitBreaker.Breaker.Reset` | internal/client/circuit_breaker.go:64-71 | A reset breaker is as new. |
| `CircuitBreaker.AllowedMeans` | internal/client/circuit_breaker.go:38-60 | A call is allowed exactly when the breaker is not tripped, allows any order, and the window has expired or is not used up; an expired window is left behind. |
| `CircuitBreaker.SparseIsAllowed` | internal/client/circuit_breaker.go:34-60 | A trace is allowed throughout when, from each moment at which a window could open, at most the limit of calls comes before it would expire. |
| `CircuitBreaker.SlowTraceIsAllowed` | internal/client/circuit_breaker.go:34-60 | On one clock reading for each call, a trace of which no span as long as the window has more calls than the limit is allowed throughout. |
| `CircuitBreaker.SpanHoldsAtMostTwice` | internal/client/circuit_breaker.go:34-60 | On a clock that does not run backwards, any span no longer than the window holds at most twice the limit. |
| `CircuitBreaker.SpanInvariant` | internal/client/circuit_breaker.go:34-60 | What lies in the span comes from the window open when it began and at most one other. |
| `CircuitBreaker.TwiceIsReached` | internal/client/circuit_breaker.go:44-48 | For every start and every positive limit and window a trace allows twice the limit within one tick. |
| `CircuitBreaker.WindowHoldsAtMostLimit` | internal/client/circuit_breaker.go:44-56 | Each window the breaker opens allows at most the limit. |
| `CircuitBreaker.SpanWithoutOpening` | internal/client/circuit_breaker.go:44-56 | Any span, of any length, in which no window opens holds at most the limit. |
| `CircuitBreaker.RollingLimitIff` | internal/client/circuit_breaker.go:9-10 | Every span no longer than the window holds at most the limit, in every trace, exactly when the limit or the window is not positive. |
| `CircuitBreaker.RefusalIsFinal` | internal/client/circuit_breaker.go:38-56 | After the first refusal nothing is allowed. |
| `MarketStreamer.Status.SetConnected` | internal/streamer/market.go:133-141 | Keeps the status what its history says, with a connect added. |
| `MarketStreamer.Status.SetDisconnected` | internal/streamer/market.go:143-152 | Keeps the status what its history says, with a disconnect added. |
| `MarketStreamer.Status.TouchLastEvent` | internal/streamer/market.go:154-160 | Keeps the status what its history says, with a stamped quote added. |
| `MarketStreamer.LastTouchIsLatest` | internal/streamer/market.go:133-160 | The stored time is that of the latest quote since the last connect; a disconnect keeps it and a connect forgets it. |
| `MarketStreamer.LastChangeMeans` | internal/streamer/market.go:133-152 | The last connect or disconnect decides whether the streamer is up and which error it shows. |
| `MarketStreamer.LastConnectMeans` | internal/streamer/market.go:133-141 | The connected-since time is that of the last connect. |
| `MarketStreamer.NeverChangedMeans` | internal/streamer/market.go:119-131 | Before any connect it is down, without error. |
| `MarketStreamer.Status.CurrentStatus` | internal/streamer/market.go:119-131 | The report is what the history of connects, disconnects and quotes says. |
| `MarketStreamer.Status.IsStale` | internal/streamer/market.go:172-183 | On stamps that do not run backwards: exactly when symbols are subscribed, a quote was stamped since the last connect, and every quote stamped since then is at least the timeout old. |
| `MarketStreamer.StaleMeans` | internal/streamer/market.go:162-183 | The one stored time decides for all quotes of the connection. |
| `MarketStreamer.Status.Subscribe` | internal/streamer/market.go:229-243 | New, non-empty symbols join the list in order. |
| `MarketStreamer.JoinedMembers` | internal/streamer/market.go:229-243 | The list keeps its beginning, gains exactly the non-empty symbols asked for, and stays free of duplicates. |
| `MarketStreamer.JoinedInOrder` | internal/streamer/market.go:229-243 | New symbols stand in the order in which they were first asked for. |
| `MarketStreamer.SubscribeTwice` | internal/streamer/market.go:229-243 | Subscribing again changes nothing. |
| `WatchdogProtocol.ReconnectsAreJustified` | internal/streamer/market.go:188-213 | Over every run of reconnects, the watchdog acts only while symbols are subscribed, after a quote on its own connection, with every stamped quote at least the timeout old. |
| `WatchdogProtocol.ClockIsPerConnection` | internal/streamer/market.go:395-435 | Over every run, no dispatch of an earlier connection touches the clock once the next is set connected. |
| `WatchdogProtocol.JoinsKept` | internal/streamer/market.go:408-435 | Only the latest connection can still have a dispatcher or a watchdog, and between connections none has. |
| `WatchdogProtocol.UninterruptedLookIsStale` | internal/streamer/market.go:172-211 | A watchdog whose two looks nothing separates decides as `IsStale` on the same history. |
| `WatchdogProtocol.NoQuoteReceivedIff` | internal/streamer/market.go:162-183 | Over every run, at a forced reconnect every quote received on the connection is at least the timeout old exactly when each that is held by the dispatcher, queued or dropped is. |
| `WatchdogProtocol.UndispatchedIsOverlooked` | internal/streamer/market.go:500-551 | At any point of any run, a quote held, queued or dropped, however young, does not stop a reconnect the stored time calls for. |
| `WatchdogProtocol.QuotesAccountedFor` | internal/streamer/market.go:523-551 | Over every run, the quotes received on a connection are exactly those dispatched, held, queued or dropped, each once. |
| `WatchdogProtocol.WhatMayHappen` | internal/streamer/market.go:500-537 | The runs include any number of quotes, dropped only while 64 wait, failures at any point, and the next connection. |
| `WatchdogProtocol.DispatchMeans` | internal/streamer/market.go:540-551 | A dispatcher takes the first quote that waits and stamps the time at which it took it. |
| `OrderComparison.BrokerOrderHash` | cmd/submit_state_compare.go:405-433 | An order has a hash exactly when every leg's quantity is whole, and it is that of the order with the same fields and the same legs, one for one. |
| `OrderComparison.MergeBrokerOrders` | cmd/submit_state_compare.go:382-403 | Lists the latest order of each non-empty ID once, newest first and then by ID. |
| `OrderComparison.LatestIsLast` | cmd/submit_state_compare.go:383-389 | Of several orders with one ID the last counts, so recent overrides live, and no ID is lost. |
| `OrderComparison.MergeIsDetermined` | cmd/submit_state_compare.go:390-402 | Map order does not show in the merged list. |
| `OrderComparison.CompareLocalSubmitStateToBroker` | cmd/submit_state_compare.go:175-254 | The results are a sorted arrangement of one classification of the account's records and the merged orders. |
| `ComparisonLaws.LocalsMean` | cmd/submit_state_compare.go:371-380 | The records compared are exactly those of the account, each as often as listed, in key order. |
| `ComparisonLaws.ResultsOrderMeans` | cmd/submit_state_compare.go:464-474 | Results stand by outcome, then identity, then broker ID. |
| `Ordering.StringLessMeans` | cmd/submit_state.go:227-229 | Texts are compared at the first place where they differ, and a beginning comes before what it begins. |
| `OrderComparison.FilterResultsByOutcome` | cmd/submit_state_compare.go:335-346 | No filter shows all; otherwise exactly the results of the outcome as typed, in order. |
| `ComparisonLaws.WhereIsInOrder` | cmd/submit_state_compare.go:335-346 | What a filter keeps is what satisfies it, each once, in the order in which it stood. |
| `OrderComparison.SummarizeResults` | cmd/submit_state_compare.go:348-369 | The four outcomes in fixed order with the number of results of each. |
| `ComparisonLaws.OneEntryPerLocal` | cmd/submit_state_compare.go:197-228 | One entry for each local record with its identity, state and hash; no other entry is a record's. |
| `ComparisonLaws.PlausibleIffOneToOne` | cmd/submit_state_compare.go:197-228 | A plausible match exactly when one record and one order share a hash no other has, and it names that order; unmatched exactly when in flight with no order of its hash. |
| `ComparisonLaws.BrokerEntriesAre` | cmd/submit_state_compare.go:230-250 | One further entry for each order that has no hash or that no record accounts for. |
| `ComparisonLaws.BrokerEntryMeans` | cmd/submit_state_compare.go:230-250 | Which orders get an entry of their own, and what it says. |
| `ComparisonLaws.EachBrokerIdOnce` | cmd/submit_state_compare.go:197-250 | No broker order is named by two entries. |
| `ComparisonLaws.UnnamedIsAmbiguous` | cmd/submit_state_compare.go:197-250 | An order no entry names has the hash of local records, each reported ambiguous. |
| `ComparisonLaws.TotalsAddUp` | cmd/submit_state_compare.go:335-369 | The four totals of what is shown add up to its length; unfiltered, to records plus orders without one. |
| `ComparisonLaws.ResultsAreDetermined` | cmd/submit_state_compare.go:464-474 | Given unique identities there is one sorted arrangement of the entries. |
| `ComparisonLaws.ComparisonIsAFunction` | cmd/submit_state_compare.go:175-254 | Two comparisons of the same records and lists agree in results and orders. |
| `ComparisonLaws.FilterNeedsExactText` | cmd/submit_state_compare.go:326-346 | An accepted filter shows what its trimmed text names exactly when it is trimmed, blank, or names nothing present. |
| `MarketSymbol.MatchIsTheExpression` | cmd/market_data_symbol.go:9 | The matcher accepts what the regular expression accepts, in the one way it can. |
| `MarketSymbol.StrikeIsExact` | cmd/market_data_symbol.go:38-49 | The printed strike is strike divided by a thousand, exactly. |
| `MarketSymbol.StrikeText` | cmd/market_data_symbol.go:42-49 | A point is printed only before digits that do not end in zero. |
| `MarketSymbol.WrittenIsPrinted` | cmd/market_data_symbol.go:42-49 | A whole part without leading zeros, with a point only before digits that do not end in zero, that reads back as the strike is what is printed. |
| `MarketSymbol.PrintedIsWritten` | cmd/market_data_symbol.go:42-49 | Every printed strike is of that form. |
| `MarketSymbol.RewriteInverts` | cmd/market_data_symbol.go:33-50 | Underlying, expiry, right and strike can be read back from a rewritten symbol. |
| `MarketSymbol.NormalizeInverts` | cmd/market_data_symbol.go:21-51 | The same for the rewriting of any equity option symbol that matches. |
| `MarketSymbol.NormalizeIs` | cmd/market_data_symbol.go:21-51 | A matching symbol becomes a point, underlying, expiry, right, and the one text of that form that reads back as the strike. |
| `MarketSymbol.OthersAreTrimmed` | cmd/market_data_symbol.go:21-34 | Everything else is only trimmed. |
| `MarketSymbol.EqualFoldMeans` | cmd/market_data_symbol.go:26-28 | The instrument type is compared but for the case of ASCII letters. |
| `MarketSymbol.NormalizeTwice` | cmd/market_data_symbol.go:21-51 | Rewriting twice is rewriting once. |
| `MarketSymbol.RewritesExactlyWhatMatches` | cmd/market_data_symbol.go:21-32 | Beyond trimming, exactly the matching symbols of equity options are changed. |
| `DropHandler.OneBitIsPowerOfTwo` | cmd/root.go:267 | One set bit means a power of two. |
| `DropHandler.Log2Step` | cmd/root.go:265-272 | The logarithm grows exactly at the counts that have one set bit. |
| `DropHandler.Handler.OnDrop` | cmd/root.go:260-274 | Keeps one more than the logarithm of the drops as the number of warnings, and warns exactly at powers of two. |
| `DropHandler.WarningsAreLogarithmic` | cmd/root.go:251-259 | From the first drop on, `n` drops give floor(log2 n) + 1 warnings. |

## Left out

- HTTP, WebSocket, JSON, SQLite, Prometheus and log output: their answers are parameters; a request body that cannot be sent a second time, back-off waits and `Retry-After` are not part of the model.
- Several processes sharing the state file at once, and deleting it by hand: the code takes no lock and does not claim to handle either.
- A state file cut off in the middle of a write is taken not to parse as JSON, which is true of every proper prefix of the one object the code writes.
- SHA-256: any function of the text; where keys must differ the lemma says so.
- Registry methods on a nil registry, and what `recordView` formats.
- The order of deny reasons: `PreSubmitPolicy.Evaluate` fixes which are given and that none repeats.
- The tables `PolicyForResult` and `GateDecisionForResult`: finite case tables; the gate's answer is a parameter of the submit command.
- Locks around single methods of the book, the registry and the breaker: each call is one step. A REST symbol's `Snapshot` and `LoadPosition` are one step in `AbsenceProtocol`, though the code holds no lock across the pair.
- `PositionSymbols`, `MismatchCategories` copies and `cloneResult`: values need no copying here.
- Quotes and positions of one option are filed under different texts in the book; its properties are for each text.
- `BusProtocol.UninterruptedPublish`: for a publish while no receiver waits; the hand-over to one is in `Bus.Channel.TrySend` and in the protocol's steps.
- The drop callback of the bus: `DropHandler` models it by itself, called once for each drop.
- `Shutdown.ShutdownFinishes`: `select` may pick the ticker although the context is done, and a streamer may deliver what it already holds; how often is any number fixed at the cancel, since the language's fairness is not modelled.
- What consumers compute from an event (fill and balance records, metrics): in `Shutdown` an order or balance event may write or not.
- Start-up: seeding the book from REST, `--no-streamer`, and a store that does not open.
- `time.Sub` saturates at about 292 years; here differences are exact.
- `DropHandler.Handler.OnDrop`: up to the largest signed 64-bit count, where the counter would wrap.
- Notes, recommended actions and hints of the comparison, and its command-line account selection; int64 overflow of a broker quantity.
- OAuth, configuration parsing beyond the two facts the policy reads, the metrics server, the account resolver, pagination and quote decoding.
