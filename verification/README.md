# Corduit core: models and proofs

Corduit is a proxy engine with few dependencies; its synchronisation, data structures and byte
arithmetic are written by hand. This project models the parts of it where a mistake is hardest to
see and proves what they are for.

- **LRU cache** (`LruSpec`, `LruCache`). Map, arena, free indices and the recency list threaded through
  the arena, as a class whose methods are each proved to do to the sequence of entries what
  the simple sequence cache does. That sequence cache is in turn proved equal, over every run, to a
  cache that stamps each use with a clock and evicts the oldest stamp.
- **Cancellation, admission, relay** (`CancelToken`, `Admission`, `Relay`). Transition systems with one
  step for every atomic access and every locked region, any number of threads (two directions for the
  relay), and invariants over every interleaving.
- **Timer** (`TimerWheel`). The scheduler over a heap with stale nodes and an entry map, beside callers
  that insert, cancel and shut down, under a clock that only moves forward.
- **Checksums** (`Crc`, `Adler`), **keystream** (`Keystream`), **civil dates** (`CivilDate`),
  **base64 and PEM** (`Base64`, `PemBundle`): fast forms against slow definitions, and inverses.
- **Upstream strings and suffix rules** (`Upstream`, `Pattern`, over `Text`): a parser with its printer,
  and a string comparison with the label comparison it stands for.
- **Prefixed stream** (`PrefixedStream`): bytes already read are served before the wire is touched.

Transition systems have the same layout. `Step` (from `Next`, `NextAccept`, `StepDir` and the like)
makes one access of the source, `Run` folds steps from a fresh state, `Reachable` says some run leads
there, and `InvKept` proves that every step keeps the invariant the theorems read off.

## Where code and comments differ

The models follow the code.

- `src/common/lru.rs:54` says a free slot has no key. `pop` leaves the key behind, and nothing else does:
  a free slot holds one exactly if `pop` was what freed it last (`LruCache.LruCache.FreeSlotKeepsKeyIff`,
  `LruCache.LruCache.Pop`, `LruCache.PoppedSlotKeepsKey`). No free slot holds a value.
- `src/common/cancel.rs:132-142`: `wait` does not look at the flag again under the lock, so it can fall
  asleep after the notify (`CancelToken.WaitCanSleepPastNotify`). That befalls exactly the calls that
  wait for the lock when the notify is made (`CancelToken.SleepsPastNotifyIff`); the verdict is right
  either way.
- `src/common/cancel.rs:151-161`: `wait_cancelled` does not loop around its condition variable, so a
  spurious wake-up, and nothing else, brings it back early (`CancelToken.SpuriousWakeUpReturns`,
  `CancelToken.SpuriousReturnsUncancelled`, `CancelToken.ParkReturnsCancelled`).
- `src/common/cancel.rs:70-76`: only the winning `cancel` waits for the hooks; another returns at once
  (`CancelToken.LosingCancelReturnsEarly`, `CancelToken.LosingCancelWaitsForNothing`,
  `CancelToken.WinnerWaitsForHooks`).
- `src/common/stream.rs:495-506`: a half-close is skipped exactly if the destination is serialized, still
  open, and read by the partner under its lock at that moment (`Relay.HalfCloseShutsIff`,
  `Relay.HalfCloseCanBeSkipped`).
- `src/common/stream.rs:636-641`: the ending "end of stream while cancelled" releases only its
  destination. A partner writing on a shared source is left on an open side exactly after this ending,
  and until the cancel hook comes to that side (`Relay.WriterLeftOpenIff`,
  `Relay.CancelledAtEofLeavesAWriter`).
- `src/common/timer.rs:16-17` promises that a cancelled entry is removed promptly. `cancel` removes the
  id it was given, which frees the timer for good exactly if no entry of it stands under another id and
  the scheduler holds none with a positive period (`TimerWheel.RemovalFreesIff`). It fails after the first
  firing, when the entry has another id (`TimerWheel.CancelledEntryCanLinger`), and already during the
  first job, when the scheduler has the entry and puts it back (`TimerWheel.CancelDuringFirstJobLingers`).
  The entry still never fires.
- A repeating timer with period 0 hangs the scheduler after its first job, and with it every other timer
  (`TimerWheel.ZeroPeriodIsReached`, `TimerWheel.ZeroPeriodSpins`, `TimerWheel.SpinsForever`).
- `src/crypto/checksum.rs:83-85` bounds a chunk by 2550 * 65520 + 65520, which is not the sum a chunk can
  reach. 5552 is right nevertheless, and exactly so (`Adler.ChunkLengthIsTight`).
- `src/crypto/rng.rs:40-43` ignores that the cipher's counter stops at its last value: from block
  2^32 - 1 on the generator returns one block for ever (`Keystream.BytesRepeatOnlyAtTheEnd`).
- `src/dns/pattern.rs:34-37`: keys such as `..x` normalise to a rule that would normalise further, and the
  four spellings of a bare suffix are one rule only under a condition on that suffix
  (`Pattern.NormalizeAgainByKeyIff`, `Pattern.NormalizeAgainIff`, `Pattern.SpellingsAgreeIff`).
- `src/dns/upstream.rs:355-361` leaves a colon without a port after it in the host. Such a name is
  accepted, and its rendering is another server (`Upstream.RoundTripIff`, `Upstream.ColonNameIsAccepted`,
  `Upstream.ColonNameExists`).

## Model

| member | source | states |
|---|---|---|
| LruSpec.LruIsOldestStamp | src/common/lru.rs:149-359 | over every run of operations, the sequence cache and a cache that evicts the smallest last-use stamp hold the same entries and give the same replies |
| LruSpec.RunIsBounded | src/common/lru.rs:125-133 | after every run the keys are distinct and there are at most capacity of them |
| LruSpec.PutAgrees | src/common/lru.rs:333-359 | put replaces in place, or evicts the entry used longest ago and only for a new key in a full cache |
| LruSpec.LastIsOldest | src/common/lru.rs:84-88 | the last entry is the one used longest ago, strictly |
| LruCache.LruCache.constructor | src/common/lru.rs:113-123 | a new cache is valid and empty |
| LruCache.LruCache.LinkFront | src/common/lru.rs:255-263 | the index becomes the first of the list, links stay mutual inverses from head to tail, no key or value changes |
| LruCache.LruCache.Unlink | src/common/lru.rs:267-280 | the neighbours, or head and tail, are joined around the index and its own links cleared |
| LruCache.LruCache.UnlinkLive | src/common/lru.rs:267-280 | the list loses exactly that index and stays well linked |
| LruCache.LruCache.MoveToFront | src/common/lru.rs:283-289 | the index comes first and the others keep their order |
| LruCache.LruCache.Conserved | src/common/lru.rs:79-91 | live and free indices partition the arena, which never outgrows the capacity; len, map and list agree; keys are distinct |
| LruCache.LruCache.FreeSlotKeepsKeyIff | src/common/lru.rs:54-61 | a free slot holds no value, and a key exactly if pop freed it last |
| LruCache.LruCache.Get | src/common/lru.rs:150-158 | returns and leaves what the sequence cache does: the entry moves to the front |
| LruCache.LruCache.Peek | src/common/lru.rs:161-168 | same value, nothing moves |
| LruCache.LruCache.Contains | src/common/lru.rs:141-147 | true exactly for the keys held |
| LruCache.LruCache.GetMut | src/common/lru.rs:171-179 | the entry moves to the front and takes the caller's write; no other entry changes |
| LruCache.LruCache.Pop | src/common/lru.rs:183-198 | removes exactly that entry, survivors keep their order; the freed slot keeps the key |
| LruCache.LruCache.PopLru | src/common/lru.rs:201-213 | removes and returns the last entry |
| LruCache.LruCache.Clear | src/common/lru.rs:216-227 | empty and valid again |
| LruCache.LruCache.AllocSlot | src/common/lru.rs:245-252 | a recycled index if there is one, else one new slot |
| LruCache.LruCache.EvictLru | src/common/lru.rs:304-316 | removes and returns the last entry and its key from the map |
| LruCache.LruCache.RemoveAt | src/common/lru.rs:321-325 | unlinks the slot and recycles it, whatever it still holds |
| LruCache.LruCache.Put | src/common/lru.rs:341-359 | what the sequence cache's put does, with the displaced value returned |
| LruCache.PoppedSlotKeepsKey | src/common/lru.rs:188-197 | a cache in which putting and popping an entry leaves its key in a free slot |
| LruCache.LruCache.Iterate | src/common/lru.rs:230-235 | an iterator that has the whole contents ahead of it, front first |
| LruCache.Iter.Next | src/common/lru.rs:371-376 | yields the pending entries one by one, most recently used first, and then none |
| LruCache.Iter.SizeHint | src/common/lru.rs:378-386 | exactly the number of entries still to come |
| CancelToken.InvKept | src/common/cancel.rs:79-161 | every access of every call keeps the lock ownership, registration and wake-up invariants |
| CancelToken.HooksRunAtMostOnce | src/common/cancel.rs:79-123 | in every interleaving a hook runs at most once, and only after the flag is up |
| CancelToken.CallIsWhatItBegan | src/common/cancel.rs:79-161 | in every run a call stands, from its beginning on, in the operation it began and in no other: nothing asked for is dropped |
| CancelToken.HooksRunExactlyOnce | src/common/cancel.rs:79-123 | when the winning cancel and all registrations are over, the hook of every on_cancel ever begun ran exactly once, queued ones in registration order, none remains |
| CancelToken.WinnerWaitsForHooks | src/common/cancel.rs:79-94 | when the winning cancel is back every queued hook has run, and none is queued or can still be |
| CancelToken.NoLostWakeUp | src/common/cancel.rs:79-86 | nobody is asleep in wait_cancelled once the winning cancel has passed its notify |
| CancelToken.WaitSeesTheFlag | src/common/cancel.rs:132-143 | once the flag is up no call of wait that has not returned yet returns false |
| CancelToken.WaitNeverLies | src/common/cancel.rs:132-143 | wait returns true only for a cancelled token |
| CancelToken.SleepsPastNotifyIff | src/common/cancel.rs:132-140 | after the winning notify a call of wait can be found asleep exactly if it was waiting for the lock when the notify was made |
| CancelToken.NeverDozes | src/common/cancel.rs:132-135 | once the flag is up, a wait that is not already waiting for the lock or asleep never sleeps |
| CancelToken.ParkReturnsCancelled | src/common/cancel.rs:144-161 | without a spurious wake-up of its own, wait_cancelled comes back only from a cancelled token |
| CancelToken.NeverStuck | src/common/cancel.rs:70-76 | after the notify, while any call is unfinished some call can take a step |
| CancelToken.CallsDoNotLoop | src/common/cancel.rs:107-161 | on_cancel, wait_cancelled and wait take nine steps at the most, whatever the others do |
| CancelToken.LateCallsAreQuick | src/common/cancel.rs:111-154 | once the flag is up wait and wait_cancelled are back at their next access and a new hook runs at the one after, no lock taken |
| CancelToken.EarlyHookIsQueued | src/common/cancel.rs:115-121 | before that, a hook is queued last |
| CancelToken.CancelRunsEverything | src/common/cancel.rs:79-94 | the first cancel, with nobody in its way, raises the flag, wakes the sleepers and has run every hook in order when it is back |
| CancelToken.WaitTimesOut | src/common/cancel.rs:132-143 | wait sleeps and comes back from its timeout with false, and leaves the token as it was |
| CancelToken.LosingCancelReturnsEarly | src/common/cancel.rs:79-82 | a run in which the second cancel is back before a hook registered earlier has run |
| CancelToken.LosingCancelWaitsForNothing | src/common/cancel.rs:79-82 | a cancel that finds the flag up is back at its next access; the queued hooks have all run by then exactly if the winner has none left |
| CancelToken.WaitCanSleepPastNotify | src/common/cancel.rs:132-140 | a run in which wait falls asleep after the notify |
| CancelToken.SpuriousWakeUpReturns | src/common/cancel.rs:151-161 | a run in which wait_cancelled returns from a token nobody cancelled |
| CancelToken.SpuriousReturnsUncancelled | src/common/cancel.rs:151-161 | from any state, a sleeper in an uncancelled token whose lock is free comes back uncancelled through a spurious wake-up |
| Admission.InvKept | src/common/listener.rs:102-130 | every access of sessions, accept loop and stop keeps the counting and wake-up invariants |
| Admission.ActiveIsPermitsOut | src/common/listener.rs:102-120 | active is exactly the number of permits out and never exceeds max |
| Admission.BudgetIsTheGiven | src/common/listener.rs:84-89 | after every run the bound is the one given, or 1 for 0, and is not exceeded |
| Admission.AcceptGoesOnIff | src/common/listener.rs:212-269 | the accept loop of a listener nobody has stopped has left exactly if an accept failed for good; nobody is turned away before the stop |
| Admission.ConnectionIsServed | src/common/listener.rs:212-250 | with a slot free and nobody in the way a waiting connection gets its permit and the loop is back for the next |
| Admission.SlotIsHandedOn | src/common/listener.rs:102-120 | a permit given back goes to the sleeper notified |
| Admission.NoSleeperForgotten | src/common/listener.rs:102-120 | while not cancelled, a sleeper beside free slots means as many notifies to come or woken waiters as there are free slots |
| Admission.StopWakesEverybody | src/common/listener.rs:122-130 | once the cancel hook has run nobody is asleep in acquire or about to be |
| Admission.StopReleasesAccept | src/common/listener.rs:200-205 | once the hook has run the accept loop can move, or the very session whose permit it awaits can, or the holder of the lock that session needs |
| Admission.StoppedAcceptWindsDown | src/common/listener.rs:212-267 | with the flag up every step of the accept loop, failed accepts included, brings its exit nearer and starts no session |
| Admission.StoppedSessionIsDenied | src/common/listener.rs:102-112 | after the flag is up a session that asks gets no permit, and the accept loop that asked leaves |
| Relay.InvKept | src/common/stream.rs:611-685 | every access of both directions, the hook, the caller and the peers keeps the relay's invariants |
| Relay.FinishedWindsDown | src/common/stream.rs:629-633 | once finished is set each direction begins one more read and one more write at the most |
| Relay.WindingUpEnds | src/common/stream.rs:606-610 | in any continuation after finished is set or the token cancelled, a direction takes no more steps than a bound fixed by where it stood |
| Relay.SomeDirectionMoves | src/common/stream.rs:477-482 | a direction that is not over can move, or waits for a lock its partner holds inside a read or write, and the partner can |
| Relay.PartnerIsReleased | src/common/stream.rs:603-610 | when the setter of finished is over, its partner is not parked in a read on an open shared side, and in a write on one exactly after the ending that leaves the side to the cancel hook, until the hook comes |
| Relay.WriterLeftOpenIff | src/common/stream.rs:636-641 | the partner's shared side is still open for writing exactly if the ending was end of stream while cancelled and the hook has not reached the side |
| Relay.HookReleasesBoth | src/common/stream.rs:759-766 | once the cancel hook is through, both halves of every shared side are shut |
| Relay.SerializedIsExclusive | src/common/stream.rs:446-448 | a serialized side is never read and written at once |
| Relay.HalfCloseArrives | src/common/stream.rs:642-646 | a clean half-close always reaches a shared side |
| Relay.HalfCloseShutsIff | src/common/stream.rs:487-508 | a half-close leaves the write half shut exactly if it was shut, or the side is shared, or the partner is not reading it then |
| Relay.DeliversInOrder | src/common/stream.rs:635-684 | what a direction delivered is at every moment a prefix of what the peer sent, and the two counts equal its length between chunks |
| Relay.OkMeansDelivered | src/common/stream.rs:842-860 | Ok means both directions met end of stream, every byte sent was delivered in order, and statistics and accounting add up to exactly those bytes |
| Relay.OkIffUndisturbed | src/common/stream.rs:750-860 | a relay that has returned returned Ok exactly if no cancellation, no fault, panic or empty write met it and its thread started |
| Relay.UndisturbedGoesOn | src/common/stream.rs:635-684 | while nothing goes against it, whatever else happens, finished stays clear, no direction ends but by end of stream, and a return is Ok |
| Relay.PollLeavesNoTrace | src/common/stream.rs:648-659 | a read that finds nothing leads round the loop to the very same state |
| Relay.RoundCarriesChunk | src/common/stream.rs:635-684 | one round moves the next 1 to 32768 bytes across, however the writes are cut, counts them once, and changes nothing else |
| Relay.EndOfStreamIsHandedOn | src/common/stream.rs:635-647 | the peer's end of stream becomes a half-close of the destination and nothing else |
| Relay.ChunksFit | src/common/stream.rs:22 | no chunk in hand is larger than 32768 bytes |
| Relay.UpsetEndsIt | src/common/stream.rs:660-673 | a fault, a panic or an empty write ends the direction there and then, its lock given back |
| Relay.ReleasesInOrder | src/common/stream.rs:622-673 | which side an ending releases first, and that end of stream while cancelled leaves its source alone |
| Relay.ReturnsNothingOpen | src/common/stream.rs:750-860 | a relay that has returned ran both directions to their ends, or moved no byte and shut both halves of both sides |
| Relay.CancelledStartRunsNothing | src/common/stream.rs:750-757 | called with a cancelled token it starts no direction |
| Relay.OkIsReached | src/common/stream.rs:842-860 | a run in which a byte is delivered and relay_with returns Ok with the two sums |
| Relay.HalfCloseCanBeSkipped | src/common/stream.rs:495-506 | a run in which a half-close misses a serialized side |
| Relay.CancelledAtEofLeavesAWriter | src/common/stream.rs:636-641 | a run in which a cancelled direction is over and its partner is still writing on a shared side nobody has shut |
| TimerWheel.PushKeeps | src/common/timer.rs:184-188 | a new node gets a fresh id and keeps every queue invariant |
| TimerWheel.PopKeeps | src/common/timer.rs:133-138 | taking the earliest node with its entry keeps them too |
| TimerWheel.InvKept | src/common/timer.rs:113-161 | every step of scheduler and callers keeps all the invariants |
| TimerWheel.OneNodePerEntry | src/common/timer.rs:45-54 | each id in the entry map has one node in the heap and no second, and no timer has two live copies, counting the scheduler's |
| TimerWheel.NoTimerIsLost | src/common/timer.rs:133-159 | a handle's id never stands for another timer's entry, and a timer not cancelled that repeats or has not started has its entry in the map or with the scheduler |
| TimerWheel.PoppedInOrder | src/common/timer.rs:133-135 | of two nodes in the heap together, the one popped first is the earlier in (deadline, id) order |
| TimerWheel.StartsOnTheGridAndNotEarly | src/common/timer.rs:116-127 | no job starts before its deadline, and every deadline served is the first one plus a whole number of periods |
| TimerWheel.StartsOfOneTimer | src/common/timer.rs:144-159 | two starts of one timer: it repeats, and the later one serves a tick after the earlier one had begun, so no bursts and no second start of a one-shot |
| TimerWheel.RescheduledToNextTick | src/common/timer.rs:147-158 | the new deadline is the least tick after the last clock reading |
| TimerWheel.CatchUpLoop | src/common/timer.rs:148-151 | for a positive period and any bounded monotone clock the loop ends, at the first tick its last reading had not reached |
| TimerWheel.NeverOversleeps | src/common/timer.rs:116-127 | an unnotified sleeping scheduler wakes no later than the earliest deadline and is not needed for shutdown |
| TimerWheel.SchedulerNeverStuck | src/common/timer.rs:113-161 | unless asleep or stopped the scheduler can take its next step |
| TimerWheel.NeverLeavesEarly | src/common/timer.rs:113-131 | the scheduler has left only a timer that was shut down |
| TimerWheel.DueJobStarts | src/common/timer.rs:133-144 | a due, live, uncancelled earliest node has its job started by the next three steps, once, now, for its own tick |
| TimerWheel.DueIsServed | src/common/timer.rs:133-159 | the scheduler then comes back to the heap, a one-shot done with and a repeating timer queued for its first tick after now; of stale and cancelled nodes nothing comes |
| TimerWheel.EverythingDueIsServed | src/common/timer.rs:113-159 | left to itself it starts everything due and not cancelled and nothing else, no timer twice, and sleeps until the earliest deadline left |
| TimerWheel.NoStartAfterCancel | src/common/timer.rs:139-141 | once the flag is up and the scheduler not past its check, no continuation starts the timer again, across re-keying |
| TimerWheel.RemovalFreesIff | src/common/timer.rs:218-224 | completing cancel rules out any later entry of the timer exactly if none stands under another id and the scheduler holds none with a positive period |
| TimerWheel.GoneStaysGone | src/common/timer.rs:153-157 | a timer without an entry and without a copy that renews itself never has an entry again |
| TimerWheel.RemovalIsPromptBeforeFiring | src/common/timer.rs:218-224 | an entry waiting in the map is freed by its handle exactly if it has not fired yet |
| TimerWheel.CancelDuringFirstJobLingers | src/common/timer.rs:144-157 | a run in which cancel completes during the timer's first job and the entry appears afterwards |
| TimerWheel.CancelledEntryCanLinger | src/common/timer.rs:153-157 | a run in which cancel completes and the entry stays |
| TimerWheel.ZeroPeriodIsReached | src/common/timer.rs:173-178 | a run in which the job of a timer with period 0 has started |
| TimerWheel.ZeroPeriodSpins | src/common/timer.rs:147-151 | after the first job of a timer with period 0 the scheduler is in a loop it cannot leave |
| TimerWheel.SpinsForever | src/common/timer.rs:149-151 | from there no run leaves it and no job starts |
| Crc.BuildTable | src/crypto/checksum.rs:16-34 | entry i is eight register steps from i |
| Crc.BitStepLinear | src/crypto/checksum.rs:23-27 | a register step distributes over XOR |
| Crc.FeedByte | src/crypto/checksum.rs:61-64 | eight data bits fed in, low one first, are eight steps of the register with the byte put in |
| Crc.StepsByTable | src/crypto/checksum.rs:62-63 | eight steps are a byte shift and a correction by the low byte |
| Crc.TableByte | src/crypto/checksum.rs:62-63 | one table step is eight serial steps |
| Crc.Crc32.constructor | src/crypto/checksum.rs:54-56 | the initial value, over a correct table |
| Crc.Crc32.Update | src/crypto/checksum.rs:59-66 | the state is that of the serial register after every bit of the data |
| Crc.Compute | src/crypto/checksum.rs:74-78 | one-shot use is the serial register from all ones, complemented |
| Crc.CheckValue | src/crypto/checksum.rs:14-34 | the checksum of "123456789" is 0xCBF43926 |
| Crc.SerialSplits | src/crypto/checksum.rs:36-40 | feeding pieces is feeding the whole |
| Crc.SerialInjective | src/crypto/checksum.rs:59-66 | states that differ stay different under the same data |
| Crc.SerialIsFeedAll | src/crypto/checksum.rs:59-66 | the register after data is the register after its bits, low one of each byte first |
| Crc.DetectsBursts | src/crypto/checksum.rs:59-71 | damage confined to 32 consecutive bits, at any bit offset, always changes the checksum |
| Adler.SumsSplit | src/crypto/checksum.rs:104-117 | sums over pieces are sums over the whole |
| Adler.CheckValue | src/crypto/checksum.rs:104-122 | the two sums of "Wikipedia" are 0x0398 and 0x11E6 |
| Adler.EagerIsDeferred | src/crypto/checksum.rs:110-115 | reducing late gives what reducing after every byte gives |
| Adler.ChunkLengthIsTight | src/crypto/checksum.rs:83-107 | a length is safe for 32-bit sums, whatever data and reduced start, exactly up to 5552 |
| Adler.Adler32.AddChunk | src/crypto/checksum.rs:110-113 | within a chunk no addition leaves 32 bits, and the sums are the unbounded ones |
| Adler.Adler32.Update | src/crypto/checksum.rs:105-117 | the sums come out as the unbounded ones modulo 65521, for data of any length |
| Adler.Adler32.Finalize | src/crypto/checksum.rs:120-122 | both sums can be read back from the checksum |
| Adler.UpdateInPieces | src/crypto/checksum.rs:104-117 | two updates leave what one update with the joined data leaves |
| CivilDate.YearOfEraIsRight | src/common/clock.rs:37-40 | the year of the era is the one the day falls in |
| CivilDate.CivilIsValid | src/common/clock.rs:36-48 | every integer day number gives a valid proleptic Gregorian date |
| CivilDate.CivilFollowsCalendar | src/common/clock.rs:36-48 | the next day number gives the calendar's next date |
| CivilDate.DaysOfCivil | src/common/clock.rs:77-85 | days_from_civil undoes civil_from_days on every integer |
| CivilDate.CivilOfDays | src/common/clock.rs:77-85 | civil_from_days undoes days_from_civil on every valid date |
| CivilDate.NextIsOneDayLater | src/common/clock.rs:77-85 | the calendar's next date has the next day number |
| CivilDate.Epoch | src/common/clock.rs:33-36 | day 0 is 1970-01-01 |
| Base64.PositionIsInverse | src/common/roots.rs:134-147 | a letter's value is its place in the alphabet |
| Base64.AlphabetIs | src/common/roots.rs:134-142 | the alphabet in its order, and the three blanks |
| Base64.HoldsNext | src/common/roots.rs:152-157 | after each sextet fewer than eight bits are pending and they are the last sextet's low bits, though the buffer wraps |
| Base64.TakeByte | src/common/roots.rs:154-157 | the byte pushed is the next whole one of the concatenated sextets |
| Base64.Decode | src/common/roots.rs:133-161 | the whole bytes of the sextets before the first '=', blanks skipped, or the first byte outside the alphabet |
| Base64.BitsInOrder | src/common/roots.rs:152-157 | bit n of the output is bit n of the concatenated sextets |
| Base64.DecodeOfEncode | src/common/roots.rs:128-161 | decoding undoes section 4 of RFC 4648 with blanks anywhere |
| Base64.PaddingEndsIt | src/common/roots.rs:143-145 | nothing after the first '=' counts |
| PemBundle.ParseBundle | src/common/roots.rs:110-126 | the loop yields the blocks in turn, stops at an incomplete one, and fails on one that does not decode |
| PemBundle.BundleRoundTrip | src/common/roots.rs:108-126 | any number of certificates in a bundle come out in order and whole, with any text around them that hides no marker |
| PemBundle.OneCertificate | src/common/roots.rs:110-122 | the two marker lines, written out, with the base64 of a certificate between them yield it |
| PemBundle.CutOffBlockIsDropped | src/common/roots.rs:113-118 | a last block without its end line is dropped and the blocks before it stand |
| PemBundle.BadBlockFails | src/common/roots.rs:119-121 | a whole block that does not decode fails the bundle |
| Keystream.ChaCha20.NextBlock | src/crypto/stream/chacha20.rs:65-78 | the next block of the stream, what was pending dropped |
| Keystream.ChaCha20.ApplyKeystream | src/crypto/stream/chacha20.rs:92-117 | XORs exactly the next bytes of the stream, from where the last call stopped |
| Keystream.ChaChaRng.FillBytes | src/crypto/rng.rs:46-61 | the output is the next bytes of the stream, however the call straddles refills |
| Keystream.ChaChaRng.NextU8 | src/crypto/rng.rs:64-71 | the next byte of the stream |
| Keystream.PiecesAreTheStream | src/crypto/rng.rs:46-71 | requests of any lengths together receive the stream, no byte skipped or repeated |
| Keystream.BlocksCountUp | src/crypto/stream/chacha20.rs:65-78 | the blocks are those of the starting counter value and the ones after it |
| Keystream.CutsNeedNotAgree | src/crypto/stream/chacha20.rs:85-91 | what is decrypted is what was sent, however the two ends cut the stream |
| Keystream.BytesRepeatOnlyAtTheEnd | src/crypto/stream/chacha20.rs:68-77 | the bytes of a block come again m blocks later, whatever the block function, exactly once the counter stands at its last value |
| Text.FindIsFirst | src/common/roots.rs:115-119 | find yields the first occurrence, and none only if there is none |
| Text.FoldIsLowerCase | src/dns/pattern.rs:44 | folding takes each capital to its letter and leaves the rest |
| Text.WhiteAre | src/dns/pattern.rs:44 | the 25 characters trimming takes off |
| Upstream.ParsedIsWellFormed | src/dns/upstream.rs:122-192 | whatever parse accepts has a plausible host, a port from 1 to 65535, a path only where the scheme takes one, and a name only where it is encrypted |
| Upstream.WellFormedIsParsed | src/dns/upstream.rs:122-192 | and every such server is what some text parses to |
| Upstream.PortlessParses | src/dns/upstream.rs:68-98 | without a port: 53 for udp, tcp and no scheme, 853 for tls and quic, 443 for https and h3, in letters of either case |
| Upstream.UnknownSchemeIsRefused | src/dns/upstream.rs:142-151 | any other word is refused |
| Upstream.WrittenPortParses | src/dns/upstream.rs:334-361 | host:port, host@port and both in brackets give that host and port, and port 0 is refused |
| Upstream.PortSpellings | src/dns/upstream.rs:338-358 | a plus sign and leading zeros change nothing, and the largest port is 65535 |
| Upstream.PathParses | src/dns/upstream.rs:153-163 | a path is taken by https and h3 and refused by the others |
| Upstream.NameParses | src/dns/upstream.rs:178-183 | an identity is taken by the encrypted four and refused by udp and tcp |
| Upstream.BlankIsRefused | src/dns/upstream.rs:122-136 | blank text and an empty fragment are refused, each with its own error |
| Upstream.BlanksAroundAuthority | src/dns/upstream.rs:328-331 | white space around the authority is ignored |
| Upstream.PlausibleNames | src/dns/upstream.rs:313-322 | of texts in host characters those of up to 253 with no dot at either end are names |
| Upstream.HostCharsAre | src/dns/upstream.rs:318-321 | letters, digits, hyphen, underscore, dot and colon |
| Upstream.HostIsJudgedFirst | src/dns/upstream.rs:165-183 | an implausible host is reported before a bad port or a name |
| Upstream.RenderedAs | src/dns/upstream.rs:257-272 | the rendered text, with the host for the identity where none was written and none for plain schemes |
| Upstream.ColonFreeHostReadsBack | src/dns/upstream.rs:359-361 | host, colon, port is split into that host and port |
| Upstream.BracketedHostReadsBack | src/dns/upstream.rs:334-346 | a bracketed host with a port is split into both |
| Upstream.ColonHostReadsBackWhole | src/dns/upstream.rs:354-357 | a host with a colon and a port after it is taken whole as the host |
| Upstream.RenderingReadsBack | src/dns/upstream.rs:257-272 | whatever stands for the host, scheme, port, path and identity around it are read back |
| Upstream.BootstrapKeepsTheRest | src/dns/upstream.rs:244-255 | rendering with an address and parsing gives that address and everything else unchanged, for every accepted upstream |
| Upstream.RoundTripIff | src/dns/upstream.rs:250-272 | rendering and parsing gives the server back exactly if its host has no colon or is an address |
| Upstream.RenderIsNormalForm | src/dns/upstream.rs:257-272 | for such a server, rendering what was parsed from a rendering changes nothing |
| Upstream.ColonNameIsAccepted | src/dns/upstream.rs:355-361 | any name with one colon and no port after it is accepted whole and does not come back |
| Upstream.ColonNameExists | src/dns/upstream.rs:355-361 | "a:b" is such a name |
| Upstream.LawfulTextExists | src/dns/upstream.rs:281-294 | the laws asked of address text can be met |
| Pattern.AnySuffixMatches | src/dns/pattern.rs:86-90 | true exactly if some suffix matches |
| Pattern.JoinedLabels | src/dns/pattern.rs:55-59 | a name is its labels joined by dots |
| Pattern.SuffixMatchIsLabelMatch | src/dns/pattern.rs:68-83 | for every host and every non-empty suffix: match exactly if, case folded and one root dot off the host, the suffix's labels are the host's last |
| Pattern.RootDotIsIgnored | src/dns/pattern.rs:68-83 | a host with one root dot more matches as the host does, and the empty suffix matches everything |
| Pattern.RootedSuffixNeverMatches | src/dns/pattern.rs:72-82 | a suffix with a root dot of its own matches no ordinary name |
| Pattern.SpellingsAgreeIff | src/dns/pattern.rs:34-54 | the four spellings of a suffix are one rule exactly if it is only dots or starts with nothing a spelling or trimming takes |
| Pattern.RuleIsFolded | src/dns/pattern.rs:43-54 | a rule is lower case and ends in no dot |
| Pattern.NormalizeAgainIff | src/dns/pattern.rs:43-54 | normalising a rule again changes nothing exactly if it starts with nothing normalising takes and ends in no white space |
| Pattern.NormalizeAgainByKeyIff | src/dns/pattern.rs:43-54 | the same told from the key: what is left after trimming, one glob and one dot has nothing for a second pass to take |
| Pattern.NormalizeTwiceDiffers | src/dns/pattern.rs:43-54 | the key "..x" normalises to ".x", which normalises to "x" |
| Pattern.PunctuationMatchesAll | src/dns/pattern.rs:39-42 | a key of dots, in any of the four spellings, normalises to the empty rule, which matches every host |
| PrefixedStream.PrefixedStream.Read | src/common/stream.rs:239-255 | a read of any size hands over the next bytes of prefix and wire and nothing else; the wire is untouched while prefix is left |

## Left out

- Hashing, generic borrowing of keys, panics in `Drop`, and the owning iterators of the LRU cache: a map is a map here, and a write through `get_mut` is a function applied to the value.
- Memory ordering weaker than sequential consistency: every atomic access is one step of one order.
- Condition-variable fairness, real time, timeouts and operating-system errors: adversarial steps, so no theorem says how soon anything happens.
- CancelToken.HooksRunExactlyOnce: a hook that calls back into the token is modelled as another call, and a hook that panics is not modelled.
- Admission.StopReleasesAccept: the wake-up connection is taken to succeed while the loop is parked in `accept`, as the comment at `src/common/listener.rs:311-317` argues; `wake_target` is not modelled.
- Relay.OkMeansDelivered: a serialized side's `write_all` is a sequence of short writes under the lock; the mutex poisoning path and the poll sleeps are not modelled.
- `relay` and `copy_one_way` in `src/common/stream.rs`: a wrapper with default accounting and a copy used by tests.
- TimerWheel.CatchUpLoop: periods of zero are excluded because the loop does not end for them, which TimerWheel.SpinsForever states.
- Job panics, the 64-bit width of ids, and `Instant` arithmetic overflow in the timer.
- CivilDate.CivilIsValid: unbounded integers, so day numbers within 719468 of the largest 64-bit integer, where the source's addition overflows, are not distinguished; formatting of the timestamp is left out.
- Base64.Decode: text is a sequence of characters; a character outside ASCII is reported whole where the source reports its first byte.
- The directories and files certificates are read from, and the Windows store, in `src/common/roots.rs`.
- Keystream.ChaCha20.ApplyKeystream: the block function is a parameter, `set_counter` and the original 64-bit-nonce construction are not part of this model, and the little-endian integers of `src/crypto/rng.rs:74-98` only assemble bytes that `FillBytes` covers.
- Upstream.RoundTripIff: reading and printing IP addresses is a parameter with three laws (Upstream.Lawful); the resolver's own parser is not part of this model.
- Error message texts: errors carry the branch that raised them.
- Strings are sequences of characters, where the source compares bytes; the comparisons modelled agree on both because every boundary they cut at is an ASCII character.
- `src/common/url.rs`, `src/common/throttle.rs`, `src/common/text.rs`, `src/crypto/codec.rs`, `src/crypto/uuid.rs`, `src/engine/health_check.rs` and `src/engine/connection_tracker.rs`: not modelled.
- Sockets, threads, platform glue and the protocol engines.
