# PoryMCP verification model

A Dafny model of the parts of the PoryMCP proxy where a mistake is hard to see in one function: what crosses read
boundaries, what several goroutines or several requests do to one row, and what two endpoints must agree on. Each module
states the code's behaviour with its branches, constants and error paths, and proves for-all properties of it. Verify the
project with `dafny verify dfyconfig.toml`.

## What is modelled

**The streaming error redaction** (`Text`, `Lines`, `HolderSpec`, `EventHolder`, `HolderTheorems`, `RawRelay`,
`EveryCut`, `CutsReach`, `DoorBytes`, `WalkSse`, `ReadBack`, `RewriteTheorems`, `Doors`). The event grammar is section
9.2 of the WHATWG HTML Living Standard. `EventHolder.Door` is the holder with its fields, its three indexes and its
in-place compaction; every method is proved against the byte automaton of `HolderSpec`. `HolderTheorems` has the
reference the automaton is held to and shows that no byte is lost or made twice and that nothing complete waits outside
a unit. `EveryCut` says what may leave for every stream, every cut into reads and every verdict; `CutsReach` shows that
each of these outcomes is some cut's, and so on exactly which streams the cut cannot show. `DoorBytes` says in bytes
which lines leave as they come and which are held to be rewritten. `WalkSse` is the event walk and the reader it has to
agree with; `ReadBack` holds both to a writer of events; `RewriteTheorems` says exactly when rewriting commutes with
reading; `Doors` puts the two together: the stream door answers as the buffered door does. The JSON rewriting and the
key walk's verdict are arbitrary functions on bytes, the caps are parameters.

**The stream capture** (`StreamCapture`, `CaptureBytes`). The audit row's bounded view of a stream: the head, the last
whole event that is not a keep-alive, the event in progress. Proved against the whole stream split into events.

**The OAuth row protocol** (`RefreshProtocol`, `RefreshOutcomes`). Presenters, sign-ins, disconnects, PATCHes, rekey
re-wraps and lock-free edits of one row as interleaved steps, with the per-upstream lock, the hold-off and a vendor that
rotates refresh tokens (section 6 of RFC 6749, section 4.14 of RFC 9700). `Rekey` models the keyring's envelope and the
rekey run, `CredentialFamily` the create and PATCH handlers and what they leave in the credential column.

**The rate limiter** (`TokenBucket`, `TokenWindow`), **exact redaction** (`RedactLiterals`, `OneLiteral`), **the audit
logger's close** (`AuditClose`), **slugs** (`Slug`, `SlugWords`), **tool identity, policy and routing** (`ToolPolicy`),
**the routing-header codec** (`Base64`, `HeaderCodec`, `StandardForms`; base64 as in section 4 of RFC 4648) and **the
query credential** (`QueryParam`).

Functions the code computes with are Dafny functions; loops and objects that change are methods and classes proved
against them. Functions that only compute have no row below: the rows name the lemma or method that says what they mean.

## Where the code and its comments differ

- `walkSSE` is described as handing its callback the payload the reader sees. It does not keep the newlines of leading
  empty `data:` lines, which `eventData` keeps; `RewriteTheorems.WalkJoinDropsLeadingNewlines` says exactly what is
  dropped, and that blank joins stay blank.
- An event rewritten from several `data:` lines keeps the first line's terminator. When that is a lone CR, every line
  after it is data, and an empty line ended by LF follows, the CR and the LF become one terminator and two events are
  read as one: `RewriteTheorems.LoneCRJoinsEvents`. `RewriteTheorems.Collides` names exactly these bodies, and
  `RewriteCommutesWithReading` shows that the law holds for all others and for no such body. A body all of whose lines
  end in CRs, or that has no lone CR, is never one.
- A keep-alive two bytes or more over the cap is judged by where writes fall, unless what was found before it is already
  too big; every other stream is kept alike under every cut: `StreamCapture.CutsNeverMatterExactly`.
- A unit the key walk proves is relayed raw or rewritten, and a large one is an error or not, depending on where reads
  end. `CutsReach.CutsNeverMatterExactly` has the streams on which this cannot show: those whose units are within the
  size limit and, where they can be proved past holdBytes, unchanged by rewriting; and, of the streams that fail when
  rewritten whole, those with a unit that can neither be rewritten nor let out raw.
- The refresh keeps a token single-use except where a refresh whose vendor rotated ends over a row that still holds the
  token it spent: an answer that is lost on the way, refused by the client or not sealed, a refused or unreadable store
  call after the answer, or a re-wrap between the re-read and the second swap. Re-wraps before the re-read do no harm,
  however many. An edit that puts a spent set back is the one other way. `RefreshProtocol.ExcusesAreExact` shows that
  these steps of the model and no others lead a spent token astray, and `AstrayIsSentNext` that the next refresh then
  sends it.
- `stillValid` treats a set with no expiry as lapsed, where the proxy otherwise presents such a set for ever. No writer
  of the proxy stores one (`RefreshProtocol.StoredSetsExpire`); it takes a row edited by hand, while a refresh is out,
  for the difference to show (`NeverExpiringGrantIsRefused`).

## Model

| member | source | states |
|---|---|---|
| Lines.NextLine | internal/mcpclient/body.go:173-191 | one line, its terminator and the rest; the parts are the body and the line holds no terminator |
| Lines.LinesLossless | internal/mcpclient/body.go:173-191 | cutting a body into lines loses nothing: the lines and terminators in order are the body |
| Lines.RecutsIsCut | internal/mcpclient/body.go:173-191 | lines written one after another are read back as the same lines, when no lone CR meets an LF |
| EventHolder.Door.TakeLine | internal/proxy/errredact.go:545-569 | one complete line does to the holder's fields what one line step does to its state |
| EventHolder.Door.NextLine | internal/proxy/errredact.go:528-570 | one turn of the scan takes CR, LF or CRLF and keeps the outcome of the bytes still to be walked |
| EventHolder.Door.ScanLines | internal/proxy/errredact.go:527-570 | the scan walks every complete line held and leaves a searched partial line |
| EventHolder.Door.Compact | internal/proxy/errredact.go:596-609 | dropping what has left moves the three indexes with it and changes nothing they stand for |
| EventHolder.Door.Decide | internal/proxy/errredact.go:572-591 | the end of a read applies the size limit, and judges a unit once when it reaches holdBytes |
| EventHolder.Door.Scan | internal/proxy/errredact.go:527-592 | scan, compact and decide together are the run over the new bytes and the end of the read |
| EventHolder.Door.FeedRawByte | internal/proxy/errredact.go:623-642 | the byte-wise watch for a blank line, unfinished runes included |
| EventHolder.Door.RelayRaw | internal/proxy/errredact.go:647-691 | a read relayed raw goes out whole, up to the blank line that returns the holder to holding |
| EventHolder.Door.PayOwed | internal/proxy/errredact.go:490-503 | the LF of a CRLF split across reads goes where the line it ends went |
| EventHolder.Door.FeedRead | internal/proxy/errredact.go:488-513 | one read: the bytes returned and the new fields are those of the automaton's read, or it fails and so does the automaton |
| EventHolder.Door.FinishHeld | internal/proxy/errredact.go:768-775 | at EOF the held unit is rewritten, or the stream fails |
| EventHolder.RelayStream | internal/proxy/stream.go:535-560 | the read loop around one holder sends what the automaton returns for the whole list of reads; when a read or the end fails, exactly what the earlier reads returned |
| EventHolder.RedactThroughHolder | internal/proxy/errredact.go:820-836 | the buffered body through a holder of its own, in one read |
| HolderSpec.RunLine | internal/proxy/errredact.go:527-570 | over a whole line, CRLF or not, the byte automaton makes exactly one line step |
| EveryCut.EveryCutIsPossible | internal/proxy/errredact.go:488-775 | for every stream, every cut into non-empty reads and every verdict: each unit of the whole stream leaves rewritten, or raw where the key walk proves a prefix of holdBytes or more within the size limit; every other line as it came; failure only by the rewriting or over the size limit |
| CutsReach.CutsReachExactly | internal/proxy/errredact.go:488-775 | these outcomes are exactly what the cuts of a stream come to: each is reached by some cut into non-empty reads |
| CutsReach.CutsNeverMatterExactly | internal/proxy/errredact.go:488-775 | every cut returns the reference redaction of the whole if and only if, where that succeeds, no unit outgrows the size limit and none that rewriting changes can be proved past holdBytes; and where it fails, some unit can neither be rewritten nor relayed raw |
| DoorBytes.BlankExactly | internal/proxy/errredact.go:546 | a line is blank exactly when it is made of UTF-8 encodings of Unicode white space, each listed by its bytes |
| DoorBytes.FramingLineGoesOut | internal/proxy/errredact.go:547-551 | outside a unit a blank line, one that opens with a colon, or one that opens with a letter and not with "data:" is returned by the read that brings it |
| DoorBytes.OtherLineIsHeld | internal/proxy/errredact.go:552-555 | any other line is held whole and nothing is returned with it |
| DoorBytes.BareTextIsRewritten | internal/proxy/errredact.go:777-795 | text with no data: line that opens with neither a colon nor a letter, a bare JSON error among it, is rewritten whole, however the reads fall |
| DoorBytes.FirstUnitIsJudged | internal/proxy/errredact.go:552-591 | what is returned of a stream that opens with a unit begins with that unit rewritten, or raw where the key walk proves part of it |
| EveryCut.ChunkingInvariance | internal/proxy/errredact.go:488-609 | for every stream whose units are within the size limit and, where the key walk may prove them past holdBytes, unchanged by rewriting, the output for every cut is the reference redaction of the whole stream, and it fails exactly when that does |
| EveryCut.FittingIsCalm | internal/proxy/errredact.go:572-591 | units of the reference cut shorter than holdBytes, or of any size within the limit when rewriting changes none that the key walk proves, meet the condition |
| EveryCut.ProvedUnitsDependOnCuts | internal/proxy/errredact.go:575-591 | a unit of one data line proved on a prefix of holdBytes or more leaves raw when a read ends there, and rewritten in one read |
| EveryCut.StreamMatchesBuffered | internal/proxy/errredact.go:768-836 | every stream shorter than holdBytes, however cut, leaves as redactThroughHolder returns the whole of it |
| HolderTheorems.Conservation | internal/proxy/errredact.go:488-691 | when redaction changes nothing, sent plus held is what came in, after any reads and under any verdicts, and held bytes stay under the cap |
| HolderTheorems.FeedConserves | internal/proxy/errredact.go:488-513 | one read of any size, empty ones included, keeps sent plus held |
| HolderTheorems.NothingCompleteWaits | internal/proxy/errredact.go:439-450 | after any reads a holder outside a unit holds no complete line |
| RawRelay.RawAgrees | internal/proxy/errredact.go:614-642 | watched byte by byte, a line counts as blank exactly when trimming white space empties it |
| RawRelay.RelayEndsAtBlankLine | internal/proxy/errredact.go:647-691 | the raw relay sends each line as it came and ends exactly at the line that would end a held unit |
| WalkSse.EventData | internal/mcpclient/body.go:121-162 | the reader: every event's joined data in order, blank ones skipped, the limit, and the error for none |
| WalkSse.JoinPayloads | internal/proxy/listfilter.go:327-341 | the walk's own join of an event's data lines |
| WalkSse.WriteEvent | internal/proxy/listfilter.go:354-377 | a changed event: the first data line carries the result in its own framing, the other data lines go, the rest stays |
| WalkSse.FlushEvent | internal/proxy/listfilter.go:322-380 | one event handed to the callback: kept, rewritten, or the walk stops |
| WalkSse.WalkSSE | internal/proxy/listfilter.go:308-408 | the walk with its offsets and its copy on change is the walk over the body's lines: output, changed flag, events seen, failure |
| ReadBack.WrittenEventsAreRead | internal/mcpclient/body.go:121-162 | events written with LF, CR or CRLF, each payload line with or without the optional space, are read as their payload lines joined by LFs, blank ones left out |
| ReadBack.WrittenEventsAreRewritten | internal/proxy/listfilter.go:308-421 | of such events the callback is handed the joined payload and its number of lines; a changed one goes out as one data line in the framing of its first, an unchanged one as it was |
| RewriteTheorems.RewriteCommutesWithReading | internal/proxy/listfilter.go:308-421 | for every body: what the reader reads from the rewritten body is its own event list with exactly the changed payloads replaced, every other line surviving in order with its terminator, if and only if no event collides; and that is exactly when the written lines are read back as themselves |
| RewriteTheorems.OneKindNeverCollides | internal/proxy/listfilter.go:354-377 | a body with no lone CR, or with no LF at all, has no colliding event, whatever the callback |
| RewriteTheorems.WalkJoinDropsLeadingNewlines | internal/proxy/listfilter.go:334-337 | the walk's join is the reader's without the newlines of leading empty data lines |
| RewriteTheorems.JoinsBlankAlike | internal/mcpclient/body.go:128-132 | the two joins of an event are blank together |
| RewriteTheorems.UnchangedWalk | internal/proxy/listfilter.go:403-405 | a walk that changes nothing gives the body back, whatever its terminators |
| RewriteTheorems.LoneCRJoinsEvents | internal/proxy/listfilter.go:359-372 | a family of bodies of two events, the first data line ended by a lone CR, that collide: rewritten, they are read as one event |
| Doors.RedactUnit | internal/proxy/errredact.go:398-417 | a unit through the walk, or as one document when it holds no event |
| Doors.TextIsOneDocument | internal/proxy/errredact.go:398-417 | a unit in which no line opens with "data:" is what the rewriter makes of the whole of it |
| Doors.EventsAreTheDocuments | internal/proxy/errredact.go:398-417 | a unit with such a line is rewritten event by event, never as one document |
| Doors.HasStrayLine | internal/proxy/errredact.go:801-815 | true exactly when some line is not blank and opens with neither a colon nor a letter |
| Doors.KeepingConserves | internal/proxy/errredact.go:398-417 | a rewriter that keeps every document makes a door that loses no byte |
| Doors.DoorsAgree | internal/proxy/errredact.go:797-836 | without stray lines, units rewritten one by one are the body rewritten by one walk |
| Doors.StreamedEventsAreRewritten | internal/proxy/errredact.go:398-609 | end to end: however the reads of a calm stream with no stray line fall the client gets redactUnit of the whole, and, when no event collides and the rewriter is well-behaved, reads in it the upstream's events rewritten one by one |
| StreamCapture.BoundaryEnd | internal/proxy/stream.go:79-95 | where the first blank line, LF LF or LF CR LF, from a position on ends |
| CaptureBytes.FirstEndIs | internal/proxy/stream.go:79-95 | the first event ends just past the first LF that LF or CR LF follows |
| CaptureBytes.CommentIsKeepAlive | internal/proxy/stream.go:123-155 | the scan's rule for a comment is that every non-empty line opens with a colon, and the first is not empty |
| CaptureBytes.KeptOfEvents | internal/proxy/stream.go:65-215 | of a stream given as events what is kept is the first bytes, the last event that is not a keep-alive or that it was over the cap, and the unended event or its last three bytes |
| CaptureBytes.OneEventIsKept | internal/proxy/stream.go:79-95 | one event ended by LF LF or by CRLF CRLF is kept whole |
| StreamCapture.IsComment | internal/proxy/stream.go:142-155 | true exactly when every line of the event, part of it in the pending bytes, opens with a colon |
| StreamCapture.TailOf | internal/proxy/stream.go:219-233 | the last three bytes of two joined pieces |
| StreamCapture.Recorder.SeamEnd | internal/proxy/stream.go:111-121 | the seam finds the blank line that begins in what is pending, and otherwise there is none |
| StreamCapture.Recorder.FindEvents | internal/proxy/stream.go:111-173 | the offsets the scan finds are the last event that is not a comment and the start of the event in progress |
| StreamCapture.Recorder.Write | internal/proxy/stream.go:104-215 | one write moves head, last, pending and both overflow flags as the reference step does |
| StreamCapture.SeamIsEnough | internal/proxy/stream.go:97-121 | three remembered bytes are enough: the tail of a text shows every blank line that the text would with what follows |
| StreamCapture.NextIsSummary | internal/proxy/stream.go:104-215 | one write turns the summary of a stream into the summary of the longer stream |
| StreamCapture.CaptureIgnoresCuts | internal/proxy/stream.go:65-215 | for every stream within the condition and every cut into writes of at most the cap, what is kept depends on the bytes alone |
| StreamCapture.NextBounded | internal/proxy/stream.go:174-214 | every buffer stays within its cap after every write |
| StreamCapture.CutsNeverMatterExactly | internal/proxy/stream.go:104-215 | the cuts of a stream never matter if and only if no complete keep-alive of two bytes or more over the cap follows an answer that is not already too big |
| StreamCapture.MisjudgedByteByByte | internal/proxy/stream.go:156-162 | such a keep-alive, written byte by byte, replaces the answer found before it by an overflow |
| RefreshProtocol.StepInv | internal/credential/present.go:140-288 | every step of every actor, but for those that lead a spent token astray, keeps the lock, stamp, outcome and token invariants |
| RefreshProtocol.SingleSpend | internal/credential/present.go:168-288 | in every interleaving a refresh token answered with a rotated successor is never sent again, nor left in an unattended row, as long as no refresh ends over a row that still holds the token it spent and no edit puts a spent token back |
| RefreshProtocol.ExcusesAreExact | internal/credential/present.go:201-273 | after every run without such a step, the next step leaves a spent token in the row, with no refresh about to replace it, if and only if it is one |
| RefreshProtocol.AstrayIsSentNext | internal/credential/present.go:197-201 | a spent token left in an unattended row is sent by the next refresh |
| RefreshProtocol.DisconnectClearsWhatItRead | internal/api/oauth.go:615-681 | in every interleaving a disconnect that lands removes exactly the token pair it read under the lock, the retry included |
| RefreshProtocol.OneRefreshAtATime | internal/credential/present.go:87-101 | no two presenters are ever inside a refresh of the row |
| RefreshProtocol.NoLapsedToken | internal/credential/present.go:330-341 | a stored token is never presented past its expiry; only the caller's own renewed set goes out unchecked |
| RefreshOutcomes.FirstLook | internal/credential/present.go:140-151 | without the lock a call ends at once with an unusable row, or one that is good for more than a minute, and otherwise waits |
| RefreshOutcomes.SecondLook | internal/credential/present.go:168-195 | under the lock a call goes to the vendor exactly when the row is usable, due, not held off and has a refresh token; else it presents the set until it lapses and then ends in the named error |
| RefreshOutcomes.SecondLookFails | internal/credential/present.go:171-178 | a row that cannot be read under the lock ends the call as a failed refresh |
| RefreshOutcomes.CompletedRefreshEnds | internal/credential/present.go:224-234 | a completed refresh stores and presents the set with the new access token, and the new refresh token if there is one |
| RefreshOutcomes.FailedRefreshEnds | internal/credential/present.go:219-221 | a failed refresh or a lost answer presents the stored set exactly while it has not expired, leaves the row, and holds everyone off for thirty seconds |
| RefreshOutcomes.RejectedRefreshEnds | internal/credential/present.go:209-217 | a rejection presents the stored set exactly while it has not expired, and takes the refresh token alone out of the row |
| RefreshOutcomes.RefusedStoreStillPresents | internal/credential/present.go:267-273 | a store that refuses the renewed set does not take it from the caller |
| RefreshOutcomes.MissedSwapEnds | internal/credential/present.go:235-259 | after a missed swap another usable grant is presented exactly while it has not expired and stays; the same refresh token is tried again |
| RefreshOutcomes.SecondSwapEnds | internal/credential/present.go:260-266 | the second swap lands exactly on the bytes that were re-read, and the caller has the renewed set either way |
| RefreshOutcomes.FailureHoldsOff | internal/credential/present.go:189-221 | in every interleaving, after a failure or a lost answer no call whose clock reads less than thirty seconds later gets to the vendor |
| RefreshOutcomes.SignInLands | internal/api/oauth.go:503-560 | a sign-in nobody disturbs stores the set it minted, for the row's URL |
| RefreshOutcomes.StaleSignInIsDropped | internal/store/sqlstore.go:1942-1946 | a sign-in that finds the row edited since, or no longer oauth, stores nothing |
| RefreshOutcomes.DisconnectLands | internal/api/oauth.go:615-660 | a disconnect nobody disturbs empties the row |
| RefreshOutcomes.RetriedDisconnectLands | internal/api/oauth.go:661-681 | a disconnect whose clear missed empties the row on its retry, when it still holds the pair that was read |
| RefreshOutcomes.PatchDecides | internal/api/upstreams.go:571-608 | a PATCH keeps the set exactly when the row was and stays oauth under the same URL and no client identity is given |
| RefreshOutcomes.RewrapKeepsTheSet | cmd/server/rekey.go:83-120 | a re-wrap keeps the set under new bytes, on the bytes it read only |
| RefreshProtocol.RefreshLands | internal/credential/present.go:197-234 | a refresh nobody disturbs sends the old token once, stores the renewed set and presents it |
| RefreshProtocol.OneRefreshServesTheWaiters | internal/credential/present.go:168-188 | a caller that waited for the lock gets the leader's set and sends nothing |
| RefreshProtocol.EarlyRewrapsAreAbsorbed | internal/credential/present.go:235-266 | re-wraps between the read and the re-read after the missed swap cost nothing, however many: the second swap stores the renewed set |
| RefreshProtocol.LostAnswerDoubles | internal/mcpclient/oauth.go:620-661 | when the vendor rotates and its answer is lost, refused or not sealed, the first refresh after the hold-off sends the spent token, with no store call failed and nothing else written |
| RefreshProtocol.StoreFailureDoubles | internal/credential/present.go:267-273 | when the store refuses the renewed set the next caller sends the spent token |
| RefreshProtocol.LateRewrapDoubles | internal/credential/present.go:260-266 | when a re-wrap between the re-read and the second swap beats it, the next caller sends the spent token |
| RefreshProtocol.OldSetPutBackDoubles | internal/credential/present.go:168-201 | when an edit puts the old set back after a rotation, the next caller sends the spent token |
| RefreshProtocol.TheirsIsRefusedExactly | internal/credential/present.go:253-258 | another writer's grant found after a missed swap is refused exactly when it has lapsed or has no expiry, and presented otherwise |
| RefreshProtocol.NeverExpiringIsPresented | internal/credential/present.go:329-332 | found in the row itself, a set with no expiry is presented, at any time and in any hold-off |
| RefreshProtocol.RefreshedSetsExpire | internal/credential/present.go:186-221 | in every run the stored set a refresh falls back on has an expiry |
| RefreshProtocol.StoredSetsExpire | internal/mcpclient/oauth.go:662-685 | in every run from a row that lapses, whose edits bring only sets that lapse, the usable set in the row has an expiry |
| RefreshProtocol.NeverExpiringGrantIsRefused | internal/credential/present.go:253-258 | a run in which a good grant with no expiry, put in the row by hand while a refresh is out, makes that call fail as expired |
| TokenBucket.Limiter.EvictIdle | internal/auth/ratelimit.go:104-110 | exactly the buckets idle longer than the limit go |
| TokenBucket.Limiter.Oldest | internal/auth/ratelimit.go:112-121 | a bucket no other is older than |
| TokenBucket.Limiter.MakeRoom | internal/auth/ratelimit.go:111-123 | nothing goes while there is room; at the cap the oldest go until one place is free |
| TokenBucket.Limiter.EvictLocked | internal/auth/ratelimit.go:103-124 | idle buckets first, then the oldest |
| TokenBucket.OnlyTheIdleGoExactly | internal/auth/ratelimit.go:103-110 | without a cap a new key's call leaves of the others exactly those that are not idle past the limit |
| TokenBucket.UnlimitedKeys | internal/auth/ratelimit.go:58-62 | a key without a limit is never refused and leaves no trace |
| TokenBucket.Limiter.Consume | internal/auth/ratelimit.go:58-87 | verdict, wait and new bucket of one call, and what it leaves of the other keys |
| TokenBucket.MapStaysWithinCap | internal/auth/ratelimit.go:111-123 | in every run, whatever the clock does, the map never exceeds the cap |
| TokenBucket.IdleEvictionIsInvisible | internal/auth/ratelimit.go:58-124 | while the cap is not reached and the clock does not step back, every call gets the verdict and wait of a limiter that never forgets a key |
| TokenBucket.AMinuteIsNeeded | internal/auth/ratelimit.go:104-110 | with any positive idle limit under a minute some run shows the difference |
| TokenBucket.CapacityEvictionShows | internal/auth/ratelimit.go:111-123 | with room for one bucket, a second key's call gives a spent key a full bucket early |
| TokenBucket.AdmissionsAreBounded | internal/auth/ratelimit.go:58-87 | from any call that gives a key a new bucket, and while it keeps it at one rate, the key is admitted at most rpm plus the refill between that reading and the latest, even if the clock steps back and whatever other keys did before and since |
| TokenWindow.RefusedExactly | internal/auth/ratelimit.go:58-87 | with a clock that does not step back, a call of a key that keeps its bucket is refused if and only if the admissions from some earlier call of the key exceed a full bucket less one plus the refill since |
| TokenWindow.ABurstIsAdmitted | internal/auth/ratelimit.go:58-87 | the first rpm calls on a new bucket are admitted, however close together |
| TokenBucket.WaitIsEnoughAndTight | internal/auth/ratelimit.go:89-101 | after the wait a whole token is there; a second sooner, when the wait is longer than one, it is not |
| TokenBucket.RetryIsSound | internal/auth/ratelimit.go:58-101 | a caller that waits retryAfter is admitted, whatever other keys did and was evicted, unless its own key was admitted in between |
| RedactLiterals.Index | internal/redact/redact.go:289-293 | the first occurrence at or after a position |
| RedactLiterals.LiteralSpans | internal/redact/redact.go:287-306 | the spans of one literal cover exactly the bytes of its occurrences, overlapping ones included |
| RedactLiterals.AllSpans | internal/redact/redact.go:283-307 | the spans of all literals of at least MinLiteralBytes cover exactly the covered bytes |
| RedactLiterals.Replace | internal/redact/redact.go:311-328 | merging sorted spans writes the text with each maximal covered run replaced by one marker |
| RedactLiterals.Redact | internal/redact/redact.go:273-329 | the result is the reference redaction, the unchanged text included |
| RedactLiterals.UncoveredStays | internal/redact/redact.go:265-272 | bytes outside every occurrence all stay, in order |
| RedactLiterals.RunIsOneMarker | internal/redact/redact.go:268-270 | a run of covered bytes becomes one marker |
| RedactLiterals.NoLiteralStays | internal/redact/redact.go:265-272 | what stays between two markers holds no literal |
| RedactLiterals.NothingToRedact | internal/redact/redact.go:271-273 | without an occurrence the text is unchanged |
| OneLiteral.OneLiteralIsReplaced | internal/redact/redact.go:265-329 | a literal of eight bytes or more that stands in the text once is replaced by "[redacted]", and nothing else changes |
| OneLiteral.ShortLiteralsStay | internal/redact/redact.go:283-286 | literals shorter than eight bytes are never looked for |
| AuditClose.StepInv | internal/audit/audit.go:62-150 | every step of Record, enqueue, the writer and Close keeps the lock, gate, order and counting invariants |
| AuditClose.NoSendOnAClosedChannel | internal/audit/audit.go:87-143 | in no interleaving does a send reach a closed channel, and the channel is closed once |
| AuditClose.EachRowInOnePlace | internal/audit/audit.go:78-127 | each recorded row is in exactly one of: its Record call, its parked goroutine, the queue, the writer's hand, the store, the dropped lines |
| AuditClose.NothingDroppedBeforeClose | internal/audit/audit.go:87-118 | no row is dropped before Close begins |
| AuditClose.HandedInOrder | internal/audit/audit.go:62-71 | the store gets the rows in the order the queue took them |
| AuditClose.NothingAcceptedAfterClose | internal/audit/audit.go:87-118 | once closed is set the queue takes no further row |
| AuditClose.DoneMeansDrained | internal/audit/audit.go:133-144 | after a Close that returned on done nothing is queued, every row the queue took has been handed over, and no later run changes that |
| AuditClose.LateRowsAreNeverStored | internal/audit/audit.go:87-92 | a row recorded after a Close returned is never queued |
| AuditClose.RecordQueues | internal/audit/audit.go:87-99 | a row recorded while the logger is open is queued at once behind the others when fewer than 1024 are queued, and otherwise goes to a goroutine of its own |
| AuditClose.SelectQueues | internal/audit/audit.go:93-99 | in every reachable state a select that finds room queues its row and drops none |
| AuditClose.RecordAfterCloseIsDropped | internal/audit/audit.go:89-92 | a row recorded after `closed` is set is dropped with a line |
| AuditClose.WaiterParks | internal/audit/audit.go:105-113 | a waiting goroutine parks while the logger is open and drops its row with a line when it is closed |
| AuditClose.ParkedRowGoesOn | internal/audit/audit.go:113-117 | a parked row is queued by the first room there is, and dropped with a line only once Close has begun |
| AuditClose.CloseCloses | internal/audit/audit.go:136-142 | a Close with the lock marks the logger and closes its channel; a later one leaves both alone |
| AuditClose.CloseReturns | internal/audit/audit.go:143-149 | a Close ended by its deadline reports the rows still queued; one ended by the writer returns on done |
| AuditClose.HoldersAreNeverStuck | internal/audit/audit.go:105-118 | once Close has begun every goroutine that holds the read lock has an enabled step, a parked send included, and each brings it closer to leaving |
| AuditClose.CloseGetsTheLock | internal/audit/audit.go:133-142 | from every reachable state the holders can all leave by at most three steps each, and then Close gets its lock |
| AuditClose.EveryScheduleFreesTheLock | internal/audit/audit.go:105-142 | in every schedule that lets in no new reader, the holders' own steps number at most three a holder, and while any holds the lock each has an enabled step: any such 3n steps free it |
| AuditClose.WriterDrains | internal/audit/audit.go:62-71 | with the channel closed the writer alone empties the queue and ends, having handed over every accepted row |
| Slug.DerivedIsValid | internal/models/slug.go:39-73 | every name derives a valid slug with no hyphen |
| Slug.DerivedSpellsTheName | internal/models/slug.go:39-53 | the slug's letters and digits are the name's, in order, all of them unless the limit cut it; none gives the fallback |
| Slug.DerivingIsIdempotent | internal/models/slug.go:39-53 | a valid slug with no hyphen is its own derivation |
| Slug.SuffixShape | internal/models/slug.go:83-99 | a suffixed slug is a non-empty part of the base without hyphens, a hyphen and the number; the whole base when it fits |
| Slug.SuffixIsInjective | internal/models/slug.go:105-108 | the suffix determines the number, for numbers of any size |
| Slug.SuffixedIsValid | internal/models/slug.go:81-99 | a suffixed slug is valid while the suffix leaves room for a base |
| Slug.SuffixedIsNotReserved | internal/models/slug.go:109-112 | no suffixed slug is a reserved word |
| Slug.SlugCandidatesN | internal/models/slug.go:115-129 | the counted walk: the first n candidates without the reserved ones |
| Slug.CandidatesAreDistinct | internal/models/slug.go:101-112 | the candidates are pairwise distinct and at most one is skipped |
| Slug.AFreeSlugExists | internal/models/slug.go:105-114 | whatever slugs are taken, the first taken plus two candidates hold a free one |
| Slug.CandidatesAreValid | internal/models/slug.go:101-129 | every candidate is valid and not reserved while its number leaves room for a base |
| SlugWords.WordsBecomeASlug | internal/models/slug.go:39-53 | words with anything else between, before and after them become the words with one underscore between each two, cut at forty characters |
| SlugWords.NoWordsNoSlug | internal/models/slug.go:49-51 | a name with no letter a to z and no digit becomes "up" |
| SlugWords.SlugsAre | internal/models/slug.go:22-37 | what a slug is, character by character; no UUID is one |
| SlugWords.ReservedWordsGiveWay | internal/models/slug.go:115-129 | mcp, api, health and metrics give way to their first suffixed candidate |
| ToolPolicy.CanonicalRoundTrip | internal/models/toolidentity.go:35-70 | parsing undoes composing for every valid slug and non-empty name |
| ToolPolicy.ParseRoundTrip | internal/models/toolidentity.go:60-70 | composing undoes parsing |
| ToolPolicy.CanonicalIsInjective | internal/models/toolidentity.go:48-53 | distinct identities have distinct canonical names |
| ToolPolicy.OneUnderscoreIsAmbiguous | internal/models/toolidentity.go:55-59 | with one underscore two slugs can own one name |
| ToolPolicy.ScopedEntryNamesOneTool | internal/models/toolidentity.go:114-145 | an entry that spells an identity matches that tool on that member only; as a prefix, the names it begins |
| ToolPolicy.UnscopedEntryMatchesEverywhere | internal/models/toolidentity.go:132-145 | an entry with no member in it matches the own name on every member, whole or as a prefix; the empty one matches nothing |
| ToolPolicy.JudgedAlike | internal/proxy/policy.go:200-320 | the aggregate endpoint gives a canonical name the reason the member endpoint of the same group gives the own name |
| ToolPolicy.PermittedMeansAllowed | internal/proxy/policy.go:163-284 | a tool is permitted exactly when the lists are readable, no deny entry names it and every allow rule with entries does, unscoped allow entries on a group left out |
| ToolPolicy.ReasonsInOrder | internal/proxy/policy.go:200-320 | which reason a refused tool gets: unreadable filter, unreadable lists, the key's deny list, its allow list, the group's filter |
| ToolPolicy.NobodysToolIsRefused | internal/proxy/policy.go:200-320 | on the aggregate a name that parses to no identity is refused once there is a rule |
| ToolPolicy.LiteralEntriesAreNames | internal/proxy/policy.go:200-320 | where there is no member a key's entries are the tool names themselves |
| ToolPolicy.KeyNeverWidens | internal/proxy/policy.go:195-199 | what the group alone refuses a key's lists cannot permit |
| ToolPolicy.DenyEntryReachesEveryEndpoint | internal/proxy/policy.go:266-270 | a key's deny entry blocks its tool on the aggregate, on the member endpoint and on a single-upstream key |
| ToolPolicy.UnscopedAllowAdmitsNothing | internal/proxy/policy.go:258-284 | an allowlist of unscoped entries admits nothing on a group |
| ToolPolicy.FilterTools | internal/proxy/policy.go:351-362 | the filtered list is, in order, exactly the tools a call to which is permitted |
| ToolPolicy.BuildRoutes | internal/proxy/aggregate.go:148-186 | the merged names and the routing table are those of the usable tools, member by member, the last entry of a name winning |
| ToolPolicy.JudgedIsExecuted | internal/proxy/aggregate.go:148-186 | with valid distinct slugs an advertised name routes to the member and own name its parse gives, and is judged as that tool is on that member's endpoint |
| ToolPolicy.EveryUsableToolIsRouted | internal/proxy/aggregate.go:131-142 | every usable tool of every member is advertised under its canonical name and routed back to itself |
| ToolPolicy.RoutedExactly | internal/proxy/aggregate.go:148-186 | the names with a route are exactly slug, two underscores and a listed tool name that is not empty and holds no control and no replacement character |
| Base64.Base64RoundTrip | internal/proxy/routingheaders.go:128-152 | decoding undoes encoding for every byte string |
| StandardForms.LettersAreTheStandards | internal/proxy/routingheaders.go:128-152 | the 64 letters are the standard's |
| StandardForms.StandardVectors | internal/proxy/routingheaders.go:128-134 | the test vectors of section 10 of RFC 4648 |
| StandardForms.BreaksAreSkipped | internal/proxy/routingheaders.go:136-152 | line breaks make no difference to what is decoded |
| StandardForms.DecodedIsSpelled | internal/proxy/routingheaders.go:136-152 | nothing decodes but the encoding of a value, up to the bits the padding leaves unused |
| StandardForms.TravelsPlainExactly | internal/proxy/routingheaders.go:112-134 | a value travels as it is exactly when it is printable ASCII with no space at its ends and not sentinel-shaped; any other travels in the sentinel |
| StandardForms.SentinelsAreDecoded | internal/proxy/routingheaders.go:136-152 | a sentinel is read as what its middle decodes to, up to 4096 bytes of UTF-8, and refused otherwise |
| HeaderCodec.HeaderRoundTrip | internal/proxy/routingheaders.go:105-152 | a name comes back from its header exactly when it stands in the clear or is UTF-8 within the bound, and no other name ever does |
| HeaderCodec.EncodingIsInjective | internal/proxy/routingheaders.go:112-134 | no two byte strings share a header value |
| HeaderCodec.EncodedStandsInAHeader | internal/proxy/routingheaders.go:91-134 | the header value is non-empty printable ASCII with no space at either end |
| HeaderCodec.ASpellingNamesOneValue | internal/proxy/routingheaders.go:136-152 | any header that decodes through the sentinel decodes to a name that itself round-trips |
| Rekey.LegacyIsNeverV1 | internal/crypto/keyring.go:15-18 | no base64 text is mistaken for the v1 form |
| Rekey.SealThenOpen | internal/crypto/keyring.go:70-109 | what a keyring seals it opens under its current key, whatever previous keys it holds or loses |
| Rekey.SealedForm | internal/crypto/keyring.go:70-78 | a sealed value is "v1:", the current key's fingerprint, a colon and base64 |
| Rekey.EnvelopeNamesItsKey | internal/crypto/keyring.go:90-109 | a v1 value opens under the first key with its fingerprint, with that as authenticated data, or not at all; a fingerprint nobody has is an unknown key |
| Rekey.NoFingerprintNoCipher | internal/crypto/keyring.go:92-95 | a v1 value whose fingerprint is not sixteen hex digits, or is missing, is no cipher text |
| Rekey.LegacyValues | internal/crypto/keyring.go:110-119 | a value stored before v1 opens under the first key that can open it with no authenticated data, the current key first |
| Rekey.RotationKeepsOpening | internal/crypto/keyring.go:80-140 | with a new current key and the old one first among the previous, everything that opened still opens alike, as long as the new key does not share the fingerprint of the key that opens a v1 value and does not itself open a legacy value |
| Rekey.RekeyRewriter | cmd/server/rekey.go:91-120 | the run fails exactly when some live row's new value does not seal and open back, else names the dead rows, else gives one checked replacement per row |
| Rekey.DeadAreDead | cmd/server/rekey.go:95-117 | the refused rows are exactly those no key opens |
| Rekey.PlaintextSurvives | cmd/server/rekey.go:83-90 | a successful run keeps every plaintext, whatever the sealing function does |
| Rekey.RekeyFinishes | cmd/server/rekey.go:83-120 | after a successful run every row is v1 under the current key and opens to its old plaintext with all previous keys removed |
| Rekey.SecondRunIsQuiet | cmd/server/rekey.go:102-104 | a second run rewrites nothing and refuses nothing |
| QueryParam.WithQueryParam | internal/mcpclient/inject.go:213-224 | the loop and the join are the rewrite: the non-naming pieces, then the pair |
| QueryParam.EscapeRoundTrip | internal/mcpclient/inject.go:222-224 | the upstream reads back the value that was set, whatever its bytes |
| QueryParam.EscapeOfOneByte | internal/mcpclient/inject.go:222-224 | letters, digits and . _ ~ - stay, a space is a plus, any other byte is a percent sign and its two upper-case hex digits |
| QueryParam.PairNames | internal/mcpclient/inject.go:222-259 | the appended pair is one piece and names its parameter |
| QueryParam.PairCarriesTheValue | internal/mcpclient/inject.go:222-224 | the pair is the name, an equals sign and a text that is read back as the value |
| QueryParam.PieceNamesItsKey | internal/mcpclient/inject.go:239-259 | a piece names the parameter exactly when its key does, unescaped, cut at a NUL and without the spaces around it |
| QueryParam.PartsAreJudgedAlone | internal/mcpclient/inject.go:239-259 | a piece names the parameter exactly when one of its parts between semicolons does |
| QueryParam.BrokenKeysName | internal/mcpclient/inject.go:239-259 | a key that cannot be unescaped names every parameter, an empty key none |
| QueryParam.OnePieceNames | internal/mcpclient/inject.go:204-259 | the rewritten query splits into the non-naming pieces, unchanged and in order, and exactly one naming piece |
| QueryParam.LastWriteWins | internal/mcpclient/inject.go:209-212 | setting the parameter again, to any value, is setting it once |
| QueryParam.CheckQueryParamRule | internal/api/upstreams.go:282-296 | the write gate refuses a query exactly when the send would drop a piece of it |
| QueryParam.AcceptedQueryIsKept | internal/api/upstreams.go:273-281 | an accepted query goes out whole with the pair appended |
| CredentialFamily.Upstream.Patch | internal/api/upstreams.go:543-796 | the handler in its own order accepts exactly the requests that are not refused, and writes the merged row |
| CredentialFamily.CreatedIsOk | internal/api/upstreams.go:369-458 | a created row's payload fits its type and its URL does not carry its own parameter |
| CredentialFamily.CreateAgreesWithPatch | internal/api/upstreams.go:369-458 | create answers as PATCH does on an empty row of that type, and also refuses a query row without its pair |
| CredentialFamily.PatchKeepsTheRow | internal/api/upstreams.go:601-757 | an accepted PATCH keeps the three row invariants |
| CredentialFamily.WhatWasCarriedIsStored | internal/api/upstreams.go:543-796 | an accepted PATCH with a credential stores what it carried, in the shape of the type, under the request's type and URL or else the row's |
| CredentialFamily.WrongShapeIsRefused | internal/api/upstreams.go:601-700 | a value of the wrong shape for the type is refused |
| CredentialFamily.OtherWritersStore | internal/api/oauth.go:503-681 | a refresh changes the tokens alone, a re-wrap the bytes alone, a sign-in stores tokens for the URL it was started on, a disconnect none |
| CredentialFamily.PayloadFitsTheType | internal/api/upstreams.go:601-778 | over every run of PATCHes, refreshes, re-wraps, sign-ins and disconnects the payload is of the auth_type's family, tokens stand only beside their URL, and a query row's URL does not carry its parameter |
| CredentialFamily.KeptCredentialKeepsItsMeaning | internal/api/upstreams.go:571-608 | a credential stays exactly when the request neither carries nor clears one, and across types only among the header-shaped ones |

## Left out

- EveryCut.EveryCutIsPossible: empty reads, after which an owed LF is forgotten; conservation covers them.
- CutsReach.CutsReachExactly: a holdBytes of 0; the proxy's is a positive constant.
- EventHolder.RelayStream: timers, budgets and the client's own write errors are not modelled.
- HolderSpec.RunLine: the capacity tricks of the buffers (releasing large ones, reusing scratch space) have no counterpart; `held` and `out` are sequences.
- RewriteTheorems.RewriteCommutesWithReading: needs a callback whose result is one non-blank line that does not open with a space and which leaves blank payloads alone, as every JSON result does.
- Doors.DoorsAgree: needs the document rewriter to leave text made only of field lines and blank lines alone, as it does with anything that is not a JSON object.
- StreamCapture.CaptureIgnoresCuts: a single write longer than the cap.
- RefreshProtocol.SingleSpend: row deletion, stored bytes no key opens, a process that ends inside a refresh and a second process on the same row are not steps; tokens, nonces and the row's `updated_at` stamps are drawn from a counter, so no two are equal, and the vendor's revocation has no effect on the state.
- RefreshProtocol.DisconnectClearsWhatItRead: rests on no two writes of a row having the same `updated_at`; a PATCH is one step under the lock, so races inside a handler's read and write are not covered.
- TokenBucket.IdleEvictionIsInvisible: capacity eviction, which `TokenBucket.CapacityEvictionShows` shows a caller can see; times and tokens are reals, so float rounding and the Duration's nanoseconds are not modelled.
- AuditClose.EveryScheduleFreesTheLock: that the scheduler runs the holders is the one thing assumed of it; the drain timer is a step that may fire at any time.
- Rekey.RekeyFinishes: AES-GCM and the fingerprint hash are uninterpreted; what is used is that an opened seal gives its plaintext and that a fingerprint is sixteen hex digits.
- HeaderCodec.HeaderRoundTrip: UTF-8 validity is an arbitrary predicate.
- QueryParam.OnePieceNames: Unicode case folding is an arbitrary reflexive relation, and the raw query is taken as the URL parser gives it.
- CredentialFamily.PayloadFitsTheType: stored blobs are taken to open; the checks on name, slug, kind, transport and enabled are one arbitrary verdict, and each handler is atomic.
- Slug.DerivedIsValid: trimming and Unicode lower-casing happen before the model; the results hold for any text they give.
- The JSON walkers of the redaction, the pattern rules, clamping and rune-boundary cuts (`RedactText`, `Clamp`, `RedactBounded`): uninterpreted or not modelled.
- The sign-in flow maps, the state parameter, and the stream's recheck of a changed row (`oauthFlows`, `upstreamChanged`, `sameGrant`).
- HTTP handlers, routing, CORS, header denylists, health, logging, the dashboard, discovery and the SQL store beyond the compare-and-swap contracts used above.
