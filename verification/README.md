# Verified models of the platform's native code

A Dafny model of the parts of this device tree in which state, loops or arithmetic decide whether the code is
right, with proofs of what they do on every input, in every run, or under every interleaving.

| component | source | files |
|---|---|---|
| Boyer-Moore search of the recovery updater | `recovery/recovery_updater.cpp` | `BoyerMoore.dfy` |
| Modified UTF-8 and UTF-16 | `libshims/strdup8to16.cpp`, `libshims/strdup16to8.cpp` | `BitOps.dfy`, `Utf16To8.dfy`, `Utf8To16.dfy`, `StringRoundTrip.dfy`, `EncoderBytes.dfy`, `TolerantDecoder.dfy` |
| AGPS data connections | `gps/gnss/Agps.cpp` | `Agps.dfy`, `AgpsSafety.dfy`, `AgpsEffects.dfy`, `AgpsMachine.dfy` |
| Tracking multiplexer | `gps/gnss/GnssAdapter.cpp` | `Tracking.dfy`, `TrackingSafety.dfy`, `TrackingEffects.dfy`, `TrackingEngine.dfy`, `TrackingRaces.dfy`, `GnssTracking.dfy` |
| Network-initiated requests | `gps/gnss/GnssAdapter.cpp` | `NiProtocol.dfy`, `NiSafety.dfy`, `NiResults.dfy`, `NiEffects.dfy`, `NiMachine.dfy` |
| On-demand position requests | `gps/gnss/GnssAdapter.cpp` | `Odcpi.dfy`, `OdcpiMachine.dfy` |
| Satellite blacklist | `gps/gnss/GnssAdapter.cpp` | `SvBlacklist.dfy`, `SvRoundTrip.dfy` |
| Geofences | `gps/geofence/GeofenceAdapter.cpp` | `Geofence.dfy`, `GeofenceResults.dfy`, `GeofenceMachine.dfy` |
| Adapter table | `gps/core/LocApiBase.cpp` | `AdapterTable.dfy`, `AdapterMachine.dfy` |

Each component has a specification on values (functions, and for the protocols a step function with a history of
what was sent and called back), the source's own loops and methods verified against it (arrays and classes that
change in place), and lemmas that say what the specification guarantees. Runs are arbitrary sequences of
operations; for the network-initiated requests they interleave the message thread and any number of timeout
threads at the points where a lock is taken or an unprotected field is read, and for the tracking sessions and the
geofences the commands and the engine's outstanding answers, in any order.

`dafny verify dfyconfig.toml` checks the whole project.

## Where the code does not do what it is meant to do

The model follows the code. These are stated as lemmas, each with the exact condition.

- The border test of the search records `p + 1` for a border that starts at `p`. The search misses occurrences
  for every NUL-free pattern with a border, except those that repeat one character
  (`CompleteExactlyWhenUnborderedOrConstant`). The marker that is searched for is not affected.
- The decoder's upper limit is 0x10fffd, not 0x10ffff as in RFC 3629 (`StandardUtf8`).
- `strlen8to16` counts in a `size_t` that wraps for strings above half the size range, before the overflow test of
  its caller: the copy then overruns its buffer (`OverrunsExactly`, `LeadersOverrun`). Its counter of expected
  bytes is an `int`, which is defined for strings of at most 2^31 bytes (`ShortStringsCount`).
- A client that sends commands about a distance-based session without waiting for their answers can get it into
  both maps, and leave the engine running for nobody (`CrossedAnswersStrandEngine`). That happens exactly when a
  message erases the only time-based session without a call to the engine (`ServedExactlyWithoutOrphans`).
- An update that raises the smallest interval may leave the engine running faster than anybody needs
  (`UpdateExactness`), and without distance support an update with a distance stops the engine although the
  session is kept (`ServedExactlyWhenSupported`).
- The tracking loops find the least power mode of all sessions, but a start that only shortens the interval runs
  the engine in the mode of another session (`StartPowerExactly`, `StartCanWeakenMode`); and a session of mode
  INVALID makes them forget the modes found before it (`PowerSinceZero`).
- A user response that arrives when its request has just timed out is left behind and answers the next request
  (`LeftoverAnswersNext`); and a leaving thread can clear the id of the next request (`IdLostExactly`).
- The timer does not limit how often ordinary and emergency position requests in turn reach the framework
  (`UpgradesAreUnlimited`).
- The mask of a blacklisted satellite is computed with an `int` shift: offset 31 blocks all satellites from there
  on (`ListRoundTrip`, `MaskRoundTrip`), and from offset 32 on the result is not defined (`LoneSatellite`).
- An engine restart brings back the geofence of a client that has gone if its removal was not answered before
  (`RestartRevivesExactly`), and forgets that a geofence was paused (`RestartAsksForAll`).

## Model

Line numbers refer to the repository's files.

| member | source | states |
|---|---|---|
| BoyerMoore.MakeDelta1 | recovery/recovery_updater.cpp:73-82 | the overwritten array holds for every byte its distance from the end of the pattern, whatever was in it before |
| BoyerMoore.BadCharIsLast | recovery/recovery_updater.cpp:70-81 | an entry of the bad-character table points at the last occurrence of its byte before the last character |
| BoyerMoore.BadCharIsSafe | recovery/recovery_updater.cpp:78-81 | the bad-character entry never exceeds a shift that puts the mismatched byte under an equal one |
| BoyerMoore.MaxSuffixLen | recovery/recovery_updater.cpp:59-68 | the result is the length of the common suffix of the pattern and its first p + 1 characters, capped at p; every index is in bounds |
| BoyerMoore.SuffixWritesEntry | recovery/recovery_updater.cpp:97-103 | one round of the ascending loop writes exactly the index for which shift length-1-p realigns the matched tail behind a different character, in spite of the cap |
| BoyerMoore.Delta2Step | recovery/recovery_updater.cpp:97-103 | one round of the ascending loop turns the table of the larger shifts into the table that includes this one |
| BoyerMoore.PrefixPass | recovery/recovery_updater.cpp:85-95 | the descending loop leaves the table that knows no realigning shift |
| BoyerMoore.SuffixPass | recovery/recovery_updater.cpp:97-104 | after the ascending overwrites the array is the good-suffix table, and no value leaves the int range |
| BoyerMoore.MakeDelta2 | recovery/recovery_updater.cpp:85-104 | both loops together give the good-suffix table |
| BoyerMoore.GoodSuffixIsLeast | recovery/recovery_updater.cpp:84-104 | for every pattern and mismatch index with a realigning shift up to the index, the table holds the smallest one |
| BoyerMoore.GoodSuffixNone | recovery/recovery_updater.cpp:89-95 | without such a shift the table holds what the border test left |
| BoyerMoore.GoodSuffixPositive | recovery/recovery_updater.cpp:84-104 | every entry moves the window forward, which is why the search ends |
| BoyerMoore.LastPrefixAtZero | recovery/recovery_updater.cpp:91-93 | the border test compares the pattern with itself at index 0, so the loop always ends with a shift of 1 there |
| BoyerMoore.LastPrefixFindsBorder | recovery/recovery_updater.cpp:89-93 | on NUL-free patterns with a border at or after p the test records one more than the start of a border |
| BoyerMoore.ScanLoop | recovery/recovery_updater.cpp:119-132 | the two nested loops compute the window-by-window scan for any tables that advance; all reads are in bounds, i stays within int, and the window end grows in every round |
| BoyerMoore.Search | recovery/recovery_updater.cpp:106-133 | any answer is a true occurrence, for every pattern the function can be called with; with safe skips it is the leftmost one, or NULL exactly when there is none |
| BoyerMoore.ScanIsSound | recovery/recovery_updater.cpp:120-130 | whatever the tables, only a window that matches completely is returned |
| BoyerMoore.OccurrenceAligns | recovery/recovery_updater.cpp:119-130 | an occurrence s places after a mismatched window is a realigning shift s |
| BoyerMoore.SkippedWindow | recovery/recovery_updater.cpp:129-129 | no window that the skip jumps over matches |
| BoyerMoore.ScanIsLeftmost | recovery/recovery_updater.cpp:119-132 | with safe skips the scan stops at the leftmost occurrence of all |
| BoyerMoore.FindIsCorrect | recovery/recovery_updater.cpp:106-133 | soundness for all patterns, and completeness for those with safe skips, as facts about the result alone |
| BoyerMoore.UnsafeSkipMisses | recovery/recovery_updater.cpp:84-133 | for each unsafe table entry there is a text, shorter than two patterns, in which an existing occurrence is not found |
| BoyerMoore.CompleteExactlyWhenSkipSafe | recovery/recovery_updater.cpp:57-133 | the search is right on every text if and only if no table entry is larger than the least realigning shift, for every pattern, with or without NULs |
| BoyerMoore.UnborderedIsSkipSafe | recovery/recovery_updater.cpp:84-104 | patterns without a non-empty proper border have safe skips |
| BoyerMoore.ConstantIsSkipSafe | recovery/recovery_updater.cpp:84-104 | so have patterns that repeat one character, although they have borders |
| BoyerMoore.BorderedIsUnsafe | recovery/recovery_updater.cpp:89-95 | every other NUL-free bordered pattern has an unsafe entry at index 1, because the border test records p + 1 instead of p |
| BoyerMoore.CompleteExactlyWhenUnborderedOrConstant | recovery/recovery_updater.cpp:57-133 | for NUL-free patterns: right on every text if and only if the pattern is border-free or repeats one character |
| BoyerMoore.ShippedPatternIsComplete | recovery/recovery_updater.cpp:47-48 | the modem version marker meets the condition: its leftmost occurrence is found in every text |
| BoyerMoore.BorderedPatternCanBeMissed | recovery/recovery_updater.cpp:91-93 | "aba" in "acaba" is answered with NULL |
| BitOps.FirstOfThree | libshims/strdup16to8.cpp:122-122 | the first byte, by shift and mask, of a unit above 0x7ff is its quotient by 4096 plus 0xe0 |
| BitOps.SecondOfThree | libshims/strdup16to8.cpp:123-123 | the middle byte is a base-64 digit plus 0x80 |
| BitOps.LastOfAny | libshims/strdup16to8.cpp:124-127 | the last byte is the lowest base-64 digit plus 0x80 |
| BitOps.FirstOfTwo | libshims/strdup16to8.cpp:126-126 | the first byte of a unit below 0x800 is its quotient by 64 plus 0xc0 |
| BitOps.TestExtension | libshims/strdup8to16.cpp:79-79 | the mask test singles out the bytes 0x80 to 0xbf |
| BitOps.LookUpLength | libshims/strdup8to16.cpp:30-31 | the packed table gives 1, 2, 3 or 4 by the leading bits, for all 256 bytes |
| BitOps.MaskLeader | libshims/strdup8to16.cpp:119-131 | the leader masks leave the value bits of a leader, and tolerate 11111xxx |
| BitOps.AppendByte | libshims/strdup8to16.cpp:33-35 | shift and mask append one base-64 digit to an accumulator of 15 bits |
| BitOps.HighSurrogate | libshims/strdup8to16.cpp:168-168 | the first surrogate of a value holds its offset divided by 1024 |
| BitOps.LowSurrogate | libshims/strdup8to16.cpp:169-169 | the second one holds the remainder |
| Utf16To8.EncodeFirstBytes | libshims/strdup16to8.cpp:117-135 | no byte of an encoding is zero, and each unit takes one to three bytes |
| Utf16To8.StrNLen16to8 | libshims/strdup16to8.cpp:29-94 | for every size_t and every input the result is the smaller of the true encoded length and SIZE_MAX-1, on the fast path and on the wrap-detecting one |
| Wrappers.WrappingAdd | libshims/strdup16to8.cpp:85-86 | a size_t sum is smaller than its first operand exactly when it wrapped |
| Utf16To8.PutUnit | libshims/strdup16to8.cpp:121-134 | one round, with the shifts and masks of the source, writes the bytes of one unit at the cursor and nothing else |
| Utf16To8.StrNCpy16to8 | libshims/strdup16to8.cpp:109-140 | exactly the encoding and one zero are written, and the rest of the buffer is untouched |
| Utf16To8.StrNDup16to8 | libshims/strdup16to8.cpp:146-168 | NULL exactly for a null string, a length of SIZE_MAX-1 or more, or a failed allocation; otherwise a buffer of exactly the encoding and its terminator |
| Utf8To16.StrLen8to16 | libshims/strdup8to16.cpp:69-100 | the counting loop returns the length function in size_t, which may wrap, and keeps its int counter in range, for every string for which that counter is defined |
| Utf8To16.ShortStringsCount | libshims/strdup8to16.cpp:71-87 | the counter is defined for every string of at most 2^31 bytes |
| Utf8To16.LongRunsDoNotCount | libshims/strdup8to16.cpp:84-84 | and for no longer string of stray extension bytes |
| Utf8To16.CountSufficesExactly | libshims/strdup8to16.cpp:69-178 | for a string that fits in memory the wrapped count is enough if and only if the true one does not exceed SIZE_MAX |
| Utf8To16.OverrunsExactly | libshims/strdup8to16.cpp:51-60 | the duplicate runs past its buffer if and only if the count wraps and stays small enough to pass the overflow test |
| Utf8To16.HalfRangeIsSafe | libshims/strdup8to16.cpp:44-61 | it never does for a string of at most half the size range |
| Utf8To16.LeadersOverrun | libshims/strdup8to16.cpp:54-60 | for every size range: with half of it and one byte of 0xf0 the count is 0 and the copy overruns |
| Utf8To16.GetExtensions | libshims/strdup8to16.cpp:135-143 | the loop over extension bytes decodes a sequence or breaks off at the first other byte, and its accumulator stays within 21 bits |
| Utf8To16.PutUnits | libshims/strdup8to16.cpp:162-172 | one round, with the shifts and masks of the source, writes the units of one value and nothing else |
| Utf8To16.LoopEndsExactly | libshims/strdup8to16.cpp:193-210 | the length-limited loop ends if and only if no terminator stands before the length |
| Utf8To16.GetUtf32FromUtf8 | libshims/strdup8to16.cpp:113-144 | stands still on the terminator and returns the next decoded value and position everywhere else, for malformed input too |
| Utf8To16.StrCpy8to16 | libshims/strdup8to16.cpp:152-178 | writes exactly the decoded units, reports their number, and touches nothing behind them |
| Utf8To16.StrCpyLen8to16 | libshims/strdup8to16.cpp:186-215 | for any int length without a terminator before it, negative ones included, the loop ends and decodes the characters that start before it; when a terminator stands there the output is that of strcpy8to16 |
| Utf8To16.StrDup8to16 | libshims/strdup8to16.cpp:44-61 | NULL exactly for a null string or when twice the wrapped count overflows; otherwise a buffer of the wrapped count holds the units, or the copy overruns it, exactly when OverrunsExactly says |
| Utf8To16.ExtendMeetsCounter | libshims/strdup8to16.cpp:75-97 | the counter of expected extension bytes and the decoder's position meet again at the end of every sequence, complete or broken off |
| Utf8To16.PairNeedsFour | libshims/strdup8to16.cpp:92-95 | only a four-byte leader can yield a surrogate pair |
| Utf8To16.LengthExceedsByFailedLeaders | libshims/strdup8to16.cpp:69-178 | for every string, the counted length exceeds the written length by exactly the number of four-byte leaders that do not decode into 0x10000..0x10fffd |
| Utf8To16.LengthFits | libshims/strdup8to16.cpp:69-178 | the counted length is always enough, and exact if and only if no four-byte leader fails |
| Utf8To16.DecodeUntilIsPrefix | libshims/strdup8to16.cpp:186-215 | decoding up to a length gives the part of the full decoding that ends with the last character to start before it |
| StringRoundTrip.RoundTrip | libshims/strdup16to8.cpp:109-140 | for every sequence of 16-bit units, zeros and unpaired surrogates included, decoding the encoding gives it back |
| StringRoundTrip.EncodeInjective | libshims/strdup16to8.cpp:109-140 | different sequences have different encodings |
| StringRoundTrip.EncodeLengthsAgree | libshims/strdup8to16.cpp:63-100 | the length pass counts exactly the units of an encoded sequence, and an encoding is a C string |
| StringRoundTrip.DecodeMoved | libshims/strdup8to16.cpp:152-178 | decoding from a position does not depend on what stands before it |
| StringRoundTrip.DecodeScalar | libshims/strdup8to16.cpp:113-144 | the bytes of section 3 of RFC 3629 for a scalar value decode to it, whatever follows |
| StringRoundTrip.DecodeUtf8 | libshims/strdup8to16.cpp:152-178 | standard UTF-8 decodes to the UTF-16 of section 2.1 of RFC 2781, one unit short for each value above 0x10fffd |
| StringRoundTrip.LengthOfUtf8 | libshims/strdup8to16.cpp:63-100 | strlen8to16 is exact on standard UTF-8 |
| StringRoundTrip.StandardUtf8 | libshims/strdup8to16.cpp:37-37 | decoding standard UTF-8 gives standard UTF-16 if and only if the text holds neither U+10FFFE nor U+10FFFF |
| StringRoundTrip.SixByteForm | libshims/strdup8to16.cpp:152-178 | the six-byte form of section 4.4.7 of the Java Virtual Machine Specification decodes to the same units as the four-byte form, and also where the four-byte form fails |
| AgpsMachine.AgpsStateMachine.AddSubscriber | gps/gnss/Agps.cpp:392-411 | a handle that is listed already is not listed again; any other goes to the end |
| AgpsMachine.AgpsStateMachine.DeleteSubscriber | gps/gnss/Agps.cpp:413-430 | erasing while iterating removes the entries of one handle and keeps the order of the others |
| AgpsMachine.AgpsStateMachine.AnyActiveSubscribers | gps/gnss/Agps.cpp:432-442 | true exactly when some subscriber is active |
| AgpsMachine.AgpsStateMachine.GetSubscriber | gps/gnss/Agps.cpp:465-478 | the place of the first subscriber with the handle, or none exactly when there is none |
| AgpsMachine.AgpsStateMachine.NotifyAllSubscribers | gps/gnss/Agps.cpp:310-343 | the callbacks go to exactly the addressed subscribers, in list order, and exactly those are erased when asked |
| AgpsMachine.AgpsStateMachine.RequestOrReleaseDataConn | gps/gnss/Agps.cpp:289-308 | one request or one release with the machine's type and APN mask |
| AgpsMachine.AgpsStateMachine.ProcessSubscribe | gps/gnss/Agps.cpp:73-107 | the new state, list, callbacks and requests in each of the four states |
| AgpsMachine.AgpsStateMachine.ProcessUnsubscribe | gps/gnss/Agps.cpp:109-171 | the same for a departing subscriber, with the three ways in which the list can end up |
| AgpsMachine.AgpsStateMachine.ProcessFrameworkEvent | gps/gnss/Agps.cpp:173-283 | the same for granted, released and denied, including the events that are ignored |
| AgpsMachine.AgpsStateMachine.DropAllSubscribers | gps/gnss/Agps.cpp:495-506 | the list is emptied and nobody is told |
| AgpsMachine.AgpsManager.RequestATL | gps/gnss/Agps.cpp:563-597 | an active subscriber that does not wait for the close enters the machine of its type, after the demotion of SUPL emergency types |
| AgpsMachine.AgpsManager.ReleaseATL | gps/gnss/Agps.cpp:599-625 | the first machine that lists the handle loses it; the others are untouched |
| AgpsMachine.AgpsManager.Report | gps/gnss/Agps.cpp:627-662 | a framework event reaches the machine of its type and no other; without such a machine a null one is used |
| AgpsMachine.AgpsManager.HandleModemSSR | gps/gnss/Agps.cpp:664-675 | both machines drop all subscribers |
| AgpsSafety.Conservation | gps/gnss/Agps.cpp:73-430 | in every run and for every handle: admissions = closes + denials + losses to a modem restart + 1 if still listed; no handle is ever listed twice |
| AgpsSafety.FrameworkContract | gps/gnss/Agps.cpp:73-308 | in every run a connection is requested only while none is outstanding and released only while one is; outstanding is exactly PENDING and ACQUIRED; RELEASED has an empty list |
| AgpsSafety.ToldExactlyWhileOpen | gps/gnss/Agps.cpp:173-283 | in every run an active subscriber believes its connection open exactly in ACQUIRED, and no unlisted handle is left believing it |
| AgpsSafety.BusyForSomebody | gps/gnss/Agps.cpp:73-283 | without a modem restart PENDING and ACQUIRED have an active subscriber and RELEASING an inactive one |
| AgpsSafety.ManagerNeverReleasing | gps/gnss/Agps.cpp:563-625 | driven by the manager no machine ever reaches RELEASING and nobody is ever inactive |
| AgpsSafety.OwedIsDifference | gps/gnss/Agps.cpp:345-380 | the running balance of a handle is the difference of the callbacks that the history holds |
| AgpsSafety.StepKeeps | gps/gnss/Agps.cpp:41-506 | every operation keeps the invariant of every handle |
| AgpsSafety.RunKeeps | gps/gnss/Agps.cpp:41-506 | the invariant holds after every run |
| GnssTracking.TrackingMultiplexer.FindBest | gps/gnss/GnssAdapter.cpp:2466-2482 | the multiplexing loop finds the options with the smallest interval, and the power mode, over all sessions or all but one |
| GnssTracking.TrackingMultiplexer.StartTimeBasedTrackingMultiplex | gps/gnss/GnssAdapter.cpp:2456-2505 | the engine's new options; the caller need not wait exactly when the engine was not called |
| GnssTracking.TrackingMultiplexer.UpdateTrackingMultiplex | gps/gnss/GnssAdapter.cpp:2677-2738 | the same for an update of a time-based session |
| GnssTracking.TrackingMultiplexer.StopTimeBasedTrackingMultiplex | gps/gnss/GnssAdapter.cpp:2794-2842 | the same for a session that stops |
| GnssTracking.TrackingMultiplexer.SaveTrackingSession | gps/gnss/GnssAdapter.cpp:2286-2297 | a session enters the map that its distance and the engine's capability call for |
| GnssTracking.TrackingMultiplexer.EraseTrackingSession | gps/gnss/GnssAdapter.cpp:2300-2313 | a session leaves the map that holds it |
| GnssTracking.TrackingMultiplexer.StartTracking | gps/gnss/GnssAdapter.cpp:2401-2447 | a start command, with its limits, as one step of the tracker |
| GnssTracking.TrackingMultiplexer.UpdateTracking | gps/gnss/GnssAdapter.cpp:2580-2670 | an update command, with the changes between time and distance, as one step that leaves answers outstanding |
| GnssTracking.TrackingMultiplexer.StopTracking | gps/gnss/GnssAdapter.cpp:2759-2787 | a stop command as one step; a distance-based session stays until the engine's answer |
| GnssTracking.TrackingMultiplexer.AnswerReceived | gps/gnss/GnssAdapter.cpp:2422-2781 | what each answer about a distance-based session does, in whatever order answers and commands come: the start, both halves of a restart, the switch to time-based tracking, the stop |
| GnssTracking.TrackingMultiplexer.RestartSessions | gps/gnss/GnssAdapter.cpp:2146-2176 | after an engine restart one call restores the smallest interval and the strongest power mode |
| Tracking.BestIsSmallest | gps/gnss/GnssAdapter.cpp:2470-2482 | the loop over all sessions finds the smallest interval |
| Tracking.BestOfOthersIsSmallest | gps/gnss/GnssAdapter.cpp:2693-2712 | the loop that leaves one session out finds the smallest interval of the others |
| TrackingSafety.StartServes | gps/gnss/GnssAdapter.cpp:2456-2505 | a start keeps the engine at an interval that no session finds too long, and exact if it was |
| TrackingSafety.StopServes | gps/gnss/GnssAdapter.cpp:2794-2842 | so does a stop |
| TrackingSafety.UpdateServes | gps/gnss/GnssAdapter.cpp:2677-2738 | an update keeps the engine at an interval that no session finds too long |
| TrackingSafety.UpdateExactUnlessLags | gps/gnss/GnssAdapter.cpp:2715-2733 | an update keeps the smallest interval in force if and only if it does not raise it without improving on the others |
| TrackingSafety.RestartServes | gps/gnss/GnssAdapter.cpp:2146-2176 | a restart makes the engine exact |
| TrackingSafety.ServedUnlessOrphaned | gps/gnss/GnssAdapter.cpp:2377-2842 | in any state, whatever is outstanding: a served engine stays served by a message if and only if the message does not erase the only time-based session without a call to the engine |
| TrackingSafety.ServedExactlyWithoutOrphans | gps/gnss/GnssAdapter.cpp:2146-2842 | in any run at all, with every interleaving of commands and answers: the engine serves its sessions after every message if and only if no message orphans it |
| TrackingSafety.RestartHeals | gps/gnss/GnssAdapter.cpp:2146-2176 | after any run at all a restart makes the engine serve its sessions at exactly the smallest interval |
| TrackingSafety.RunKeeps | gps/gnss/GnssAdapter.cpp:2146-2842 | if clients wait for the answers about a session before the next command about it, a session is in one map at most and no message orphans the engine |
| TrackingSafety.EngineServesEveryRun | gps/gnss/GnssAdapter.cpp:2146-2842 | in every such run, after every message, the engine runs exactly when a time-based session exists, at no longer an interval than any of them wants |
| TrackingSafety.ExactWithoutUpdates | gps/gnss/GnssAdapter.cpp:2377-2842 | in runs without updates the engine's interval is the smallest one all along, with or without distance support and whoever waits for what |
| TrackingSafety.UnsupportedStarves | gps/gnss/GnssAdapter.cpp:2557-2675 | without distance support there is a run that keeps a session while its engine is stopped |
| TrackingSafety.ServedExactlyWhenSupported | gps/gnss/GnssAdapter.cpp:2557-2675 | every orderly run is served if and only if distance tracking is supported |
| TrackingSafety.UpdateExactness | gps/gnss/GnssAdapter.cpp:2677-2738 | in every state of an orderly run: an update of a time-based session is exact if and only if it does not lag |
| TrackingRaces.CrossedAnswersStrandEngine | gps/gnss/GnssAdapter.cpp:2622-2667 | a run in which every call succeeds and the answers about one session cross: in the end nothing is outstanding, no session is time-based, and the engine runs on |
| NiMachine.NiAdapter.Save | gps/gnss/GnssAdapter.cpp:3862-3884 | the slot, its id modulo 2^32 and its thread, whether or not the thread could be created |
| NiMachine.NiAdapter.RequestNiNotify | gps/gnss/GnssAdapter.cpp:3807-3892 | which requests are filled in, freed at once, answered at once or left unclaimed; false exactly without a client |
| NiMachine.NiAdapter.ReportNiNotify | gps/gnss/GnssAdapter.cpp:3655-3682 | the decision before it, by kind of request and emergency state, as one step of the message thread |
| NiMachine.NiAdapter.GnssNiResponse | gps/gnss/GnssAdapter.cpp:2884-2920 | which slots a user response is meant for, before any lock is taken |
| NiMachine.NiAdapter.DeliverOne | gps/gnss/GnssAdapter.cpp:2897-2915 | one response under the lock of its slot |
| NiMachine.NiAdapter.TakeRequest | gps/gnss/GnssAdapter.cpp:3762-3795 | what a timeout thread does under its lock, for a response, a timeout, and both at once |
| NiMachine.NiAdapter.ClearId | gps/gnss/GnssAdapter.cpp:3797-3798 | the id is cleared outside the lock, whatever the slot holds by then |
| NiMachine.NiAdapter.SendResponse | gps/gnss/GnssAdapter.cpp:3800-3802 | the thread hands on its payload once and is gone |
| NiSafety.StepKeeps | gps/gnss/GnssAdapter.cpp:2884-3892 | any step of any thread keeps the balance of any payload |
| NiSafety.StepSound | gps/gnss/GnssAdapter.cpp:2884-3892 | any step of any thread keeps what is promised about threads, responses and ids |
| NiResults.Conservation | gps/gnss/GnssAdapter.cpp:3746-3892 | under every interleaving, null payloads and failed thread creations included: received = refused + accepted, and accepted = sent + freed by a thread + in a leaving thread + in a slot |
| NiResults.SettledOnce | gps/gnss/GnssAdapter.cpp:3746-3892 | a payload that comes once is answered or freed at most once, and not while a slot holds it |
| NiResults.NeverOverwritten | gps/gnss/GnssAdapter.cpp:3838-3865 | in any state any step leaves an occupied slot its request, unless the slot's own thread takes it |
| NiResults.ThreadsSettleEverything | gps/gnss/GnssAdapter.cpp:3746-3805 | if every thread could be created, then from every reachable state steps of the threads alone send or free every accepted payload |
| NiResults.OwnResponses | gps/gnss/GnssAdapter.cpp:2884-2915 | unless a response is delivered after its request was taken, every request ends by its own response or by its timeout |
| NiResults.LeftoverAnswersNext | gps/gnss/GnssAdapter.cpp:3762-3795 | the next request of any kind in either slot is taken without any response of its own if and only if a late response was left there |
| NiResults.LateResponseAnswersAnother | gps/gnss/GnssAdapter.cpp:3762-3795 | a run in which the denial of one request denies the next one |
| NiResults.ResponseIsSent | gps/gnss/GnssAdapter.cpp:2884-2958 | a response to the announced id, for either slot, is sent for exactly that payload, when its thread is in time, the id was not lost and the two requests are less than 2^32 apart |
| NiResults.IdsDiffer | gps/gnss/GnssAdapter.cpp:2891-2904 | two pending requests less than 2^32 apart answer to different ids |
| NiResults.EmergencyAcceptSilences | gps/gnss/GnssAdapter.cpp:2894-2902 | accepting an emergency request frees the pending normal one and sends only the emergency one |
| NiResults.IdLostExactly | gps/gnss/GnssAdapter.cpp:3797-3798 | a leaving thread makes a request deaf to its own id if and only if the slot has been filled again (and the id is not zero) |
| NiResults.IdCanBeLost | gps/gnss/GnssAdapter.cpp:3797-3798 | such a run |
| Odcpi.Throttled | gps/gnss/GnssAdapter.cpp:3969-4012 | in every run, also with timer messages that come late: calls that are no upgrades number at most 1 + elapsed time / 10 s |
| Odcpi.StepKeeps | gps/gnss/GnssAdapter.cpp:3969-4125 | each firing is ten seconds after the arming before, and each call but the first uses up the message of a firing |
| Odcpi.ActiveIsTimed | gps/gnss/GnssAdapter.cpp:4112-4125 | an active request has an active timer, armed or with its message on the way, and the callback is never used before it was set |
| Odcpi.ActiveIsRenewed | gps/gnss/GnssAdapter.cpp:4112-4125 | from every reachable state with an active request the next timer message renews the latest request and rearms the timer |
| Odcpi.UpgradesAreUnlimited | gps/gnss/GnssAdapter.cpp:3987-3997 | for every n there is a run with n + 1 calls in no time: the bound cannot do without the upgrades |
| OdcpiMachine.OdcpiAdapter.RequestOdcpi | gps/gnss/GnssAdapter.cpp:3969-4012 | the branches for a start and a stop request as one step of the throttle |
| OdcpiMachine.OdcpiAdapter.OdcpiTimerExpire | gps/gnss/GnssAdapter.cpp:4112-4125 | a timer message as one step |
| OdcpiMachine.OdcpiAdapter.RestartSessions | gps/gnss/GnssAdapter.cpp:2150-2151 | an engine restart ends the active request and leaves the timer |
| SvBlacklist.ConvertToGnssSvIdConfig | gps/gnss/GnssAdapter.cpp:1441-1506 | the loop enters every valid satellite into its mask, with any value at all for the shifts that the language leaves undefined, and clears all masks for an empty list; true exactly when the list is empty or a mask is not |
| SvBlacklist.ConvertGnssSvIdMaskToList | gps/gnss/GnssAdapter.cpp:1538-1563 | the shifting loop appends the list of a mask |
| SvBlacklist.ConvertFromGnssSvIdConfig | gps/gnss/GnssAdapter.cpp:1508-1536 | the four lists are appended in the order of the source, and the flag is raised exactly when a mask is not empty |
| SvBlacklist.IntShiftBit | gps/gnss/GnssAdapter.cpp:1491-1491 | the shift of an int sets one bit up to offset 30; at 31 the sign extension sets all bits from 31 up |
| SvBlacklist.OrBit | gps/gnss/GnssAdapter.cpp:1491-1491 | a bit of a bitwise or is a bit of an operand |
| SvBlacklist.BitsDetermine | gps/gnss/GnssAdapter.cpp:1541-1563 | masks with the same bits are equal |
| SvRoundTrip.MasksBit | gps/gnss/GnssAdapter.cpp:1456-1494 | the masks hold what they held before, the named satellites, what the sign bit spills, and nothing else |
| SvRoundTrip.ToListBlocks | gps/gnss/GnssAdapter.cpp:1508-1563 | the list of masks names exactly the satellites whose bits are set |
| SvRoundTrip.ToListAscends | gps/gnss/GnssAdapter.cpp:1508-1563 | the list is in strictly ascending order for each constellation |
| SvRoundTrip.ListRoundTrip | gps/gnss/GnssAdapter.cpp:1441-1563 | a list whose offsets are below 32 comes back as the same satellites if and only if none at offset 31 is named without its whole constellation |
| SvRoundTrip.LoneSatellite | gps/gnss/GnssAdapter.cpp:1491-1491 | a satellite at any of the 64 offsets comes back if and only if the shift yields its bit alone |
| SvRoundTrip.ModuloShiftLoses | gps/gnss/GnssAdapter.cpp:1491-1491 | where the shift count is taken modulo 32 no satellite from offset 32 on comes back |
| SvRoundTrip.ZeroAbsorbs | gps/gnss/GnssAdapter.cpp:1484-1486 | identifier 0 absorbs its constellation: it alone comes back |
| SvRoundTrip.CanonicalForm | gps/gnss/GnssAdapter.cpp:1441-1506 | the masks depend on the named satellites only, not on order or repetition |
| SvRoundTrip.MaskRoundTrip | gps/gnss/GnssAdapter.cpp:1441-1563 | masks come back unchanged if and only if no constellation has bit 31 without all the others |
| SvRoundTrip.SomeValid | gps/gnss/GnssAdapter.cpp:1496-1502 | the masks are not empty if and only if some entry is valid |
| GeofenceMachine.GeofenceAdapter.SaveGeofenceItem | gps/geofence/GeofenceAdapter.cpp:645-661 | both indexes gain the geofence, not paused |
| GeofenceMachine.GeofenceAdapter.GetGeofenceKeyFromHwId | gps/geofence/GeofenceAdapter.cpp:108-117 | the key of a known engine id |
| GeofenceMachine.GeofenceAdapter.RemoveGeofenceItem | gps/geofence/GeofenceAdapter.cpp:664-686 | both entries go, or none when either is missing |
| GeofenceMachine.GeofenceAdapter.PauseGeofenceItem | gps/geofence/GeofenceAdapter.cpp:689-698 | a known geofence is paused and nothing else changes |
| GeofenceMachine.GeofenceAdapter.ResumeGeofenceItem | gps/geofence/GeofenceAdapter.cpp:701-710 | a known geofence is resumed and nothing else changes |
| GeofenceMachine.GeofenceAdapter.ModifyGeofenceItem | gps/geofence/GeofenceAdapter.cpp:713-724 | a known geofence gets the options and nothing else changes |
| GeofenceMachine.GeofenceAdapter.StopClientSessions | gps/geofence/GeofenceAdapter.cpp:51-78 | the loop erases all keys of the client, no other, and asks for the removal of what each led to |
| GeofenceMachine.GeofenceAdapter.RemovalAnswer | gps/geofence/GeofenceAdapter.cpp:62-73 | a successful answer erases the geofence with that engine id |
| GeofenceMachine.GeofenceAdapter.RestartGeofences | gps/geofence/GeofenceAdapter.cpp:142-176 | both indexes are cleared and each former geofence is asked for again, once |
| GeofenceMachine.GeofenceAdapter.ReaddAnswer | gps/geofence/GeofenceAdapter.cpp:166-174 | a successful answer saves the geofence under its new id, not paused |
| GeofenceMachine.GeofenceAdapter.GatherOwn | gps/geofence/GeofenceAdapter.cpp:792-805 | the buffer, as long as the batch, gets the client's own ids in order and never overflows |
| GeofenceMachine.GeofenceAdapter.GeofenceBreach | gps/geofence/GeofenceAdapter.cpp:787-818 | who is called back, with which ids |
| Geofence.RunAgrees | gps/geofence/GeofenceAdapter.cpp:51-724 | in every run in which the engine gives only fresh ids, each key leads to a geofence that carries this key, and no outstanding removal concerns an id in use |
| Geofence.SaveAgreesExactly | gps/geofence/GeofenceAdapter.cpp:645-661 | saving keeps the agreement if and only if no other key leads to the engine id |
| Geofence.EraseAgreesExactly | gps/geofence/GeofenceAdapter.cpp:62-73 | erasing keeps it if and only if no key leads to the engine id |
| Geofence.StepKeeps | gps/geofence/GeofenceAdapter.cpp:51-724 | with fresh ids every operation keeps it |
| GeofenceResults.RefinesMap | gps/geofence/GeofenceAdapter.cpp:51-724 | in every run with fresh engine ids and new keys each message does to what clients find under their keys what it would do to one simple map |
| GeofenceResults.RunSingle | gps/geofence/GeofenceAdapter.cpp:51-724 | in every such run no two geofences, stored or asked for again, carry the same key |
| GeofenceResults.RunCovered | gps/geofence/GeofenceAdapter.cpp:51-176 | in every such run in which no removal is refused, each stored geofence of a client is one that a key leads to or has a removal under way |
| GeofenceResults.DepartedClientIsForgotten | gps/geofence/GeofenceAdapter.cpp:51-78 | after a client has gone away, in every such run without a new save, no key of it leads anywhere, and once its removals are answered none of its geofences is stored |
| GeofenceResults.RestartRevivesExactly | gps/geofence/GeofenceAdapter.cpp:142-176 | a restart asks again for a client that went away if and only if one of its geofences is still stored |
| GeofenceResults.RestartAsksForAll | gps/geofence/GeofenceAdapter.cpp:142-176 | a restart asks again for whatever a key leads to; what comes back is the same if and only if it was not paused |
| GeofenceResults.ReuseBreaksAgreement | gps/geofence/GeofenceAdapter.cpp:51-78 | a run with an id given again before its removal was answered, after which a key leads nowhere |
| GeofenceResults.BreachIsDelivered | gps/geofence/GeofenceAdapter.cpp:797-805 | each breach of a known geofence reaches its owner, behind the owner's earlier ones |
| GeofenceResults.DeliveredIsBreach | gps/geofence/GeofenceAdapter.cpp:797-805 | whatever a client is told is a breach of its own, at its place in the batch |
| GeofenceResults.BatchIsPartitioned | gps/geofence/GeofenceAdapter.cpp:787-818 | the multiset of keys told in a batch is the multiset of keys of its breaches that belong to listening clients |
| AdapterMachine.LocApi.AddAdapter | gps/core/LocApiBase.cpp:230-239 | a new adapter goes to the end; a known one, one too many, or null changes nothing |
| AdapterMachine.LocApi.Compact | gps/core/LocApiBase.cpp:247-264 | the inner loop that reuses the index moves the last adapter into the hole and ends at the new length |
| AdapterMachine.LocApi.RemoveAdapter | gps/core/LocApiBase.cpp:241-275 | the outer loop stops after one removal; the array stays a prefix without holes or duplicates, followed by nulls |
| AdapterMachine.LocApi.GetEvtMask | gps/core/LocApiBase.cpp:167-174 | the union of all adapters' masks without the excluded bits |
| AdapterTable.HoleRemoves | gps/core/LocApiBase.cpp:247-264 | moving the last one into the hole loses and doubles nothing |
| AdapterTable.RunRefinesSet | gps/core/LocApiBase.cpp:230-275 | after any additions and removals the table holds the bounded set that they give, nothing twice; the engine was last told to open exactly when it is not empty |
| AdapterTable.MessageExactly | gps/core/LocApiBase.cpp:230-275 | close is posted exactly when a removal empties the table, open for an adapter exactly when it enters, and nothing when nothing changes |
| AdapterMachine.UnionHasEach | gps/core/LocApiBase.cpp:167-174 | the union has every adapter's bits |
| AdapterMachine.UnionIsLeast | gps/core/LocApiBase.cpp:167-174 | it has no others: it is within every mask that has them |
| AdapterMachine.OrderIsIrrelevant | gps/core/LocApiBase.cpp:167-174 | the union depends on which adapters there are, in whatever order removals left them |
| AdapterMachine.BitIsReported | gps/core/LocApiBase.cpp:173-173 | a bit of some adapter that is not excluded is in the event mask |
| AdapterMachine.BitIsNotReported | gps/core/LocApiBase.cpp:173-173 | a bit that no adapter has, or that is excluded, is not |
| EncoderBytes.BytesOfUnit | libshims/strdup16to8.cpp:117-135 | the bytes of each unit with the constants written out: itself from 1 to 0x7f, c0 80 for zero, two bytes to 0x7ff and three above |
| EncoderBytes.ScalarIsStandard | libshims/strdup16to8.cpp:117-135 | every scalar value from 1 to 0xffff is encoded as section 3 of RFC 3629 writes it |
| EncoderBytes.TextIsStandard | libshims/strdup16to8.cpp:109-140 | the encoding of every text of such values is its standard UTF-8 |
| EncoderBytes.SurrogateBytes | libshims/strdup16to8.cpp:121-124 | a surrogate takes three bytes that begin with 0xed |
| EncoderBytes.SixBytes | libshims/strdup16to8.cpp:109-140 | a value from 0x10000 on takes the six bytes of section 4.4.7 of the Java Virtual Machine Specification |
| EncoderBytes.EncodedLength | libshims/strdup16to8.cpp:29-94 | the exact length: one byte for each unit in 1..0x7f, two for each zero and each in 0x80..0x7ff, three for each above |
| TolerantDecoder.StrayByte | libshims/strdup8to16.cpp:122-126 | an extension byte where a character should begin is one 0xfffd, and decoding goes on behind it |
| TolerantDecoder.BrokenSequence | libshims/strdup8to16.cpp:135-143 | a leading byte followed by fewer extension bytes than it asks for is, with them, one 0xfffd, and decoding goes on with the byte that broke the sequence |
| TolerantDecoder.TwoByteSequence | libshims/strdup8to16.cpp:113-144 | a complete two-byte sequence is the unit of its value, overlong or not |
| TolerantDecoder.ThreeByteSequence | libshims/strdup8to16.cpp:113-144 | a complete three-byte sequence is the unit of its value, overlong ones and surrogates too |
| TolerantDecoder.FourByteSequence | libshims/strdup8to16.cpp:152-178 | a complete four-byte sequence, with a leader up to 0xff, is one unit, a surrogate pair, or above 0x10fffd one 0xfffd |
| AgpsEffects.RunDistinct | gps/gnss/Agps.cpp:392-411 | in every run no two entries of the list have the same handle |
| AgpsEffects.OpenLists | gps/gnss/Agps.cpp:73-107 | a handle that asks is listed afterwards, at the end unless it was listed, with the new type and mask; RELEASED becomes PENDING |
| AgpsEffects.OpenTells | gps/gnss/Agps.cpp:73-107 | the exact callbacks and requests of that: a request with the given type and mask in RELEASED, a success callback in ACQUIRED |
| AgpsEffects.CloseOfStranger | gps/gnss/Agps.cpp:599-625 | a close of a handle that is not listed changes nothing |
| AgpsEffects.CloseAchieves | gps/gnss/Agps.cpp:109-171 | in every run a close of a listed handle: it is told and gone, or waits inactive, the others stay in place; without an active one left exactly one release goes out with the machine's type and mask, and the state follows the list |
| AgpsEffects.UnexpectedEvent | gps/gnss/Agps.cpp:173-283 | framework events that nothing waits for change nothing |
| AgpsEffects.GrantAchieves | gps/gnss/Agps.cpp:173-195 | in every run a grant in PENDING tells each active subscriber once and nobody else |
| AgpsEffects.LossAchieves | gps/gnss/Agps.cpp:207-214 | in every run a forced release in ACQUIRED tells everybody once and empties the list |
| AgpsEffects.DenialAchieves | gps/gnss/Agps.cpp:273-278 | in every run a denial in PENDING tells everybody once and empties the list |
| AgpsEffects.NextAreServed | gps/gnss/Agps.cpp:216-271 | in every run a release or denial in RELEASING tells each inactive subscriber once and removes it, keeps the active ones in order, and asks for a connection exactly when there is one |
| AgpsEffects.RestartForgets | gps/gnss/Agps.cpp:495-506 | in every run a modem restart empties the list, tells nobody and leaves the state |
| AgpsMachine.DemotedBits | gps/gnss/Agps.cpp:569-573 | the demoted mask has lost the bit 0x200, has the bit 0x10 and is otherwise unchanged |
| TrackingEffects.RefinesMaps | gps/gnss/GnssAdapter.cpp:2374-2842 | in every run, for every interleaving of commands and answers, both session maps and the outstanding answers are those of two simple maps and a bag, whose changes are written out with the limits as numbers |
| TrackingEffects.StopForgets | gps/gnss/GnssAdapter.cpp:2763-2767 | a stop of a time-based session removes it at once and no other, and stops the engine with the last one |
| TrackingEffects.StopWaits | gps/gnss/GnssAdapter.cpp:2768-2781 | a stop of a distance-based session changes nothing but the answer it waits for; a success removes the session, a failure leaves all as it was |
| TrackingEffects.StartHolds | gps/gnss/GnssAdapter.cpp:2408-2447 | a started session is held with the client's options, the interval raised to 100 and M4 turned to M2 above the threshold if time-based, and every other session as before |
| TrackingEffects.UpdateHolds | gps/gnss/GnssAdapter.cpp:2590-2664 | so is an updated session that is time-based and stays so |
| TrackingEngine.BestIsFirst | gps/gnss/GnssAdapter.cpp:2466-2475 | the loop finds the first of the sessions with the smallest interval |
| TrackingEngine.PowerSinceZero | gps/gnss/GnssAdapter.cpp:2476-2481 | the loop finds the least power mode after the last session of mode INVALID, which makes it forget the modes before |
| TrackingEngine.StrongestIsFirst | gps/gnss/GnssAdapter.cpp:2165-2171 | the restart loop finds the first session if its mode is INVALID, and else the first with the least other mode |
| TrackingEngine.FirstStartRuns | gps/gnss/GnssAdapter.cpp:2461-2465 | the first session runs the engine with its own limited options |
| TrackingEngine.StartDrives | gps/gnss/GnssAdapter.cpp:2466-2501 | one more session calls the engine exactly when its interval or mode is below what the loop found, with the options so changed |
| TrackingEngine.StartPowerExactly | gps/gnss/GnssAdapter.cpp:2489-2497 | a start that calls the engine leaves it in the least mode of all sessions if and only if the new mode is below all others or the first session with the smallest interval has the least one |
| TrackingEngine.StartCanWeakenMode | gps/gnss/GnssAdapter.cpp:2489-2497 | a run of three starts after which a session of mode 1 is tracked in mode 2 |
| TrackingEngine.SwitchDrives | gps/gnss/GnssAdapter.cpp:2622-2640 | a session that switches to time-based tracking drives the engine like a new one, whether its stop succeeded or not |
| TrackingEngine.LeavingDrives | gps/gnss/GnssAdapter.cpp:2609-2621 | a session that leaves for distance-based tracking drives the engine like a stop |
| TrackingEngine.StopDrives | gps/gnss/GnssAdapter.cpp:2802-2838 | a stop with others left calls the engine exactly when the session was below what they need, with what they need |
| TrackingEngine.OnlyUpdateDrives | gps/gnss/GnssAdapter.cpp:2677-2738 | an update of the only session runs the engine with its limited options unless interval and mode stay the same |
| TrackingEngine.UpdateDrives | gps/gnss/GnssAdapter.cpp:2677-2738 | an update with others calls the engine exactly when interval or mode changed and one of them is below what the others need |
| TrackingEngine.RestartDrives | gps/gnss/GnssAdapter.cpp:2153-2176 | a restart runs the engine with the smallest interval and the mode found, or not at all without sessions, and changes no session |
| TrackingEngine.RunTidy | gps/gnss/GnssAdapter.cpp:2286-2313 | in every run, with or without distance tracking, the sessions are in key order and their options set |
| NiEffects.UnwantedEmergencyIsDenied | gps/gnss/GnssAdapter.cpp:3663-3671 | an emergency request outside an emergency is denied at once unless configured otherwise, in any state |
| NiEffects.ControlPlaneIsAccepted | gps/gnss/GnssAdapter.cpp:3672-3674 | a control-plane request in an emergency is accepted at once if so configured |
| NiEffects.NobodyToAskInEmergency | gps/gnss/GnssAdapter.cpp:3820-3837 | without a client a wanted emergency request is accepted at once and a pending normal one is to be ignored |
| NiEffects.NobodyToAsk | gps/gnss/GnssAdapter.cpp:3820-3837 | without a client any other request is left to the caller |
| NiEffects.BusyIsFreed | gps/gnss/GnssAdapter.cpp:3839-3860 | a request that finds its slots occupied is freed and changes nothing |
| NiEffects.FreeSlotHolds | gps/gnss/GnssAdapter.cpp:3862-3883 | otherwise its slot holds it under the next 32-bit id with one more thread, and the other slot is untouched |
| NiEffects.UnknownIdIsIgnored | gps/gnss/GnssAdapter.cpp:2884-2920 | a response without a callback or with an id that no pending request goes by changes nothing |
| NiEffects.TimeIsUp | gps/gnss/GnssAdapter.cpp:3762-3803 | in any state and for both slots, a request whose time is up is taken with NO_RESPONSE, and that is what is sent for it |
| NiEffects.ResponseIsTaken | gps/gnss/GnssAdapter.cpp:3762-3795 | in any state, a request with a response is taken with it, and freed if it is to be ignored |
| NiEffects.PromisesAreKept | gps/gnss/GnssAdapter.cpp:3785-3803 | in every run, each payload is sent with each response as often as threads took it with that response, those on their way apart |
| NiEffects.OnlyUsersAnswer | gps/gnss/GnssAdapter.cpp:3762-3803 | in every run, threads send Accept or Deny only after a user gave that response |
| NiEffects.IgnoreIsNeverSent | gps/gnss/GnssAdapter.cpp:3785-3803 | in every run, nothing is ever sent with the response to ignore it |
| NiEffects.SilentUsers | gps/gnss/GnssAdapter.cpp:3762-3803 | if no user responds, threads send nothing but NO_RESPONSE |
| Odcpi.FreshStartCalls | gps/gnss/GnssAdapter.cpp:3980-3983 | with no request and no timer a start calls the framework at once with the request and arms the timer |
| Odcpi.LaterStartCalls | gps/gnss/GnssAdapter.cpp:3984-4002 | any other start calls it exactly as the first emergency request, and is remembered in any case |
| Odcpi.IdleTimerEnds | gps/gnss/GnssAdapter.cpp:4122-4124 | a timer message without an active request calls nobody and ends the timer |
| Odcpi.StopSilences | gps/gnss/GnssAdapter.cpp:4003-4008 | in every run, from a stop or an engine restart until the next start the framework is not called |
| Odcpi.LatestIsRemembered | gps/gnss/GnssAdapter.cpp:4002-4002 | in every run, the request that is renewed is the latest start since the callback was set |
| SvRoundTrip.ListNumbers | gps/gnss/GnssAdapter.cpp:1508-1563 | the list of masks names a satellite by its bit's place plus 65, 201, 193 or 301, or 0 for a full mask |
| SvRoundTrip.MaskNumbers | gps/gnss/GnssAdapter.cpp:1456-1494 | a list sets the bits of the satellites it names by those numbers, with what the sign bit spills, and keeps what was set |
| SvRoundTrip.EmptyListClears | gps/gnss/GnssAdapter.cpp:1448-1454 | an empty list clears all masks, whatever they hold |
| BoyerMoore.BadCharAbsent | recovery/recovery_updater.cpp:74-76 | the entry of a byte that does not stand before the last character is the length of the pattern |
| BoyerMoore.LastPrefixIsFirst | recovery/recovery_updater.cpp:89-95 | the border test records one more than the first index from p on whose suffix starts the pattern, and the last index if there is none |

## Left out

- BoyerMoore.Search: an empty pattern is excluded, because the source builds its tables before it tests for one; and the text length plus twice the pattern length must fit an `int`, the range in which the source's index arithmetic is defined.
- Utf8To16.StrCpyLen8to16: the bytes before `length` must not hold a terminator, on which the source stands still for ever (`LoopEndsExactly`).
- Utf8To16.StrLen8to16: requires that the `int` counter does not overflow, which the language leaves undefined; `ShortStringsCount` and `LongRunsDoNotCount` say when.
- Utf8To16.StrDup8to16: a failing allocation, which the source does not test for; a copy past the buffer is reported, and what it would overwrite is not modelled.
- Utf16To8.StrNCpy16to8: the `break` for a zero unit in the last branch, which cannot be reached.
- The APN name and bearer of a data connection, and the creation of the state machines.
- AgpsMachine.AgpsStateMachine.ProcessUnsubscribe: subscribers are values in a list, so that the machine's reference to the current subscriber, and its lifetime, are not modelled.
- Failures of the calls that start, update and stop the time-based engine, GNSS operating modes, and messages that wait for the engine's capabilities.
- The threshold for time between measurements is a parameter; the file that defines it is not part of this model.
- TrackingSafety.EngineServesEveryRun: is about clients that wait for their answers; `ServedExactlyWithoutOrphans` is about all others. The power mode is the subject of `TrackingEngine`.
- The stopping of all sessions of a departing tracking client, which does not erase the time-based ones.
- NiResults.ThreadsSettleEverything: whether a thread is ever scheduled, and the length of the timeout, are left open; a timeout may come at any time.
- Reading of the two slots by a user response is one step, as threads can only empty slots meanwhile.
- OdcpiMachine.OdcpiAdapter.RequestOdcpi: the callback, once set, is taken to be callable.
- SvBlacklist.ConvertToGnssSvIdConfig: a shift by 32 or more, which the language leaves undefined, is taken to yield some number and nothing else.
- AgpsMachine.AgpsManager.Report: what the use of a null machine does.
- Geofence.RunAgrees: requires fresh engine ids; `SaveAgreesExactly`, `EraseAgreesExactly` and `ReuseBreaksAgreement` say why.
- The responses collected for a batch of geofence commands, the pause command sent to the engine after a restart, and the arguments of a breach other than the ids.
- The batching adapter, the system status tables, NMEA, position conversion, the message queue, dynamic loading, and the other updater functions and hardware modules: input and output, code outside these files, or code too simple to be worth a proof.
