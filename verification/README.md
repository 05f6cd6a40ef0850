# A mail server, proved

A Dafny model of the hard parts of a Haraka SMTP server (`email/`) and of the room service beside it
(`webrtc/`). What the JavaScript does step by step is done here step by step: objects are classes, loops are
loops, and each is proved equal to a function or to keep an invariant; lemmas say what the functions mean.
DNS, plugins, the remote end of a socket, the disk and the order of callbacks are arbitrary. Run
`dafny verify dfyconfig.toml`.

| file | what it models |
|---|---|
| `HookEngine.dfy`, `DelayDeny.dfy` | the plugin hook engine, and the plugin that overrides rejections and applies them later |
| `DataPhase.dfy` | lines of the DATA phase: arbitrary chunks, folding of long lines, the end of the message |
| `Session.dfy` | transactions, recipients and counters of an inbound session |
| `DotStuffing.dfy` | the dot-stuffing and CR LF repair done over a raw buffer |
| `Dialogue.dfy` | the SMTP and LMTP client of outbound delivery |
| `MxDelivery.dfy` | which hosts a delivery tries, and in which order |
| `HMailItem.dfy`, `QFile.dfy` | the life of a queued message, its reference count, and its file name |
| `QueueFiles.dfy` | writing queue files so that a crash leaves only whole messages |
| `TimerQueue.dfy`, `RetrySchedule.dfy` | delayed deliveries, and how long they wait |
| `DkimCanon.dfy`, `DkimBody.dfy`, `DkimSign.dfy`, `DkimVerify.dfy`, `DkimRfc.dfy`, `DkimAgree.dfy` | two streaming implementations of the DKIM body hash, compared with each other and with RFC 6376 |
| `DkimHeader.dfy` | the DKIM-Signature printer and parser |
| `Spf.dfy`, `SpfLimit.dfy` | the SPF evaluator, and what its lookup limit is worth |
| `HostPool.dfy`, `DnsList.dfy`, `Greylist.dfy`, `SmtpForward.dfy`, `RollingRestart.dfy`, `Rooms.dfy` | smaller schedulers and protocols |
| `Bytes.dfy`, `Strings.dfy`, `Numbers.dfy`, `Options.dfy` | bytes and buffer searches, strings, JavaScript numbers, missing values |

Where the code does not do what its documentation or a standard says, the code is modelled and the exact
condition is proved:

- The responder of a hook whose plugins answer runs, once, exactly when no plugin of the deny hook rejects; after such
  a rejection it never runs, since the closure the code then makes calls itself (`HookEngine.Play`,
  `HookEngine.PlayOut`, `HookEngine.RespondsOnceWithOutcome`).
- A recipient that delay_deny is to reject is accepted exactly when a plugin before it ends the hook otherwise, or
  another plugin of the deny hook answers OK to delay_deny's own rejection and the rest of the hook does not reject
  (`DelayDeny.AcceptedUnderCoverIff`, `DelayDeny.OverruledIsAccepted`).
- In a session that goes on, a message given to data_post goes uncounted only when a responder finds no transaction:
  that takes a resume with a reset under way (`Session.Run`), and it does happen (`Session.LosesAMessage`). A resume
  that comes when a message has ended reopens DATA under the hook about that message (`Session.Connection.DueResume`,
  `Session.ReopensData`).
- A failed write leaves a partial message under its own name exactly when the stream emits its close event for the
  error and the rename asked for there wins against the unlink; cut behind its header, that file reads as a whole
  message (`QueueFiles.SendTransEmail`, `QueueFiles.CutOffReads`).
- The DKIM verifier hashes a simple body as RFC 6376 has it exactly when some line of it is not blank, and a relaxed
  one exactly when no line holds a CR of its own (`DkimAgree.VerifierFollowsRfc`). The signer follows the RFC exactly
  when the message ends in a line end, or in an unterminated line behind one that is not blank
  (`DkimAgree.SignerFollowsRfc`); and the two agree exactly when both do (`DkimAgree.SignerAndVerifierAgree`,
  `DkimAgree.AgreeIffBothFollow`).
- `canonicalize` follows section 3.4.4 of RFC 6376 on a CR LF line exactly when the line has no other CR or
  LF, and is idempotent exactly when the line has a CR or LF or no word behind white space: `a b` without
  a line end becomes `a` SP, then `a` (`DkimCanon.CanonicalIsRelaxed`, `DkimCanon.CanonicalTwice`).
- The SPF limit of ten sees the lookups counted outside of includes and no others (`SpfLimit.LimitSees`). So it holds
  where the records included need no lookups (`SpfLimit.LimitHoldsForFlatIncludes`); a family of zones breaks it, and
  which of them is proved (`SpfLimit.MoreThanTenLookups`); and 2^10 - 1 is the most that can pass
  (`SpfLimit.LookupsAreBounded`, `SpfLimit.MostLookups`).
- An SPF `include` gives what RFC 4408 asks exactly when its qualifier is `+` or the record included does not pass;
  `-include` of a record that passes lets the sender pass (`Spf.IncludeQualifier`, `Spf.ExcludedPasses`).
- A RCPT answered by a success code other than 250 puts the recipient on no list, and nothing else loses one
  (`Dialogue.PartitionIff`).
- A second verdict on one delivery comes of exactly two things: an error about the whole message on a socket
  that is no longer writable, and an answer to RSET that is of class 3 or no SMTP reply (`Doubles` in
  `Dialogue.dfy`). A delivery that has stopped has no verdict at all exactly when a command was held back because TLS
  is forced and missing (`Dialogue.SessionIsSafe`).
- A queue file name reads back exactly when its unique tag has no underscore, and a deferral, which escapes
  the host once more, leaves it alone exactly when it has none of `\`, `:` and `_` (`QFile.PartsOfName`,
  `QFile.EscapedTwiceIff`).
- `TimerQueue.add` throws exactly when the queue has timers and the new time, or the one that waits, is not
  a number.
- The missing `return` after a short time span in `set_temp_fail_intervals` does no harm
  (`RetrySchedule.ShortSpanIsBad`).
- An empty room is waiting for its timer exactly when somebody has left it; one that nobody joined stays
  (`Rooms.EmptyRoomsGo`).
- A grey record that expires between the look-up and the update of one call is remade without a creation time
  and without an expiry, and its sender is put off for ever (`Greylist.PutOffForEver`).
- A rolling restart of a single worker leaves none up (`RollingRestart.Server.Graceful`).

## Model

The main results come first, then what the steps of the code do.

| member | source | states |
|---|---|---|
| HookEngine.RespondsOnceWithOutcome | email/plugins.js:417-512 | in every reachable state the responder has run at most once, and then with the value of the specification; behind a deny plugin's rejection it has not run; and unless a required hook has taken the queue, every closure but the live one is answered or cancelled |
| HookEngine.Play | email/plugins.js:417-624 | over every sequence of callbacks, timeouts, required hooks and disconnects no more answers count than there are plugins to ask; in a run not disturbed the responder has run exactly when no deny plugin rejected, as soon as no deciding answer is awaited, and so once as many events as there are plugins to ask were each the answer awaited or found none awaited |
| HookEngine.PlayOut | email/plugins.js:417-624 | a run whose awaited plugin always answers ends within that many answers, and then the responder has run exactly when no deny plugin rejected |
| HookEngine.OutcomeIsFirstDecisive | email/plugins.js:467-512 | the recursive specification is decided by the first plugin whose result is neither `cont` nor a rejection that the deny hook overrides: its answer, or never if a deny plugin rejects |
| HookEngine.SortedIsOrdered | email/plugins.js:336-344 | the registered hooks are put in (priority, registration) order |
| HookEngine.OrderIsUnique | email/plugins.js:336-344 | that order leaves nothing open |
| DelayDeny.AcceptedUnderCoverIff | email/plugins/delay_deny.js:101-135 | exactly when a recipient is accepted although a connection or MAIL rejection is delayed, for every queue of both hooks |
| DelayDeny.DelayedMeansRejected | email/plugins/delay_deny.js:63-135 | once a connection or MAIL rejection is delayed, no later recipient it covers is accepted, over whole sessions in which no plugin lets one past |
| DelayDeny.SettingAsideCovers | email/plugins/delay_deny.js:63-90 | connection and MAIL rejections are set aside and do cover |
| DelayDeny.RcptRejectionIsSpentOnce | email/plugins/delay_deny.js:116-135 | a RCPT rejection covers the next recipient only |
| DelayDeny.OverruledIsAccepted | email/plugins.js:608-618 | a deny plugin that answers OK to delay_deny's own rejection gets the recipient accepted |
| DataPhase.ReceiveChunk | email/connection.js:418-529 | a later chunk continues an earlier one, wherever the cut fell |
| DataPhase.ReceiveIsSplitThenFold | email/connection.js:418-529 | the answer is plain line splitting followed by folding each line: a fold neither makes nor hides the end of the message |
| DataPhase.PiecesFold | email/connection.js:507-527 | the pieces of a line are the only ones of exactly the limit, CR LF-terminated and SP-continued, that glue to it |
| Session.Run | email/connection.js:650-1915 | over every sequence of events, answers that come inside a reset's closure included: recipients are those accepted, totals are sums over transactions, 354 had a recipient, and data_post hooks and message counts match but for messages lost to an overlapping reset; to the end of the events, or to a resume that reopens DATA |
| Session.LosesAMessage | email/connection.js:650-712 | a session in which a message is lost: refused sender, due resume, and a reset that ends under data_post |
| Session.ReopensData | email/connection.js:665-712 | a session in which a due resume brings back DATA under data_post, without any overlap |
| DotStuffing.StuffedIsSafe | email/transaction.js:84-134 | every LF follows a CR and no line opens with a single dot |
| DotStuffing.StuffedHasNoTerminator | email/transaction.js:84-134 | the end-of-data line cannot occur in the output |
| DotStuffing.UnstuffStuffed | email/transaction.js:84-134 | a receiver's unstuffing (section 4.5.2 of RFC 5321) gives the CR LF-normalised input |
| DotStuffing.StuffConcat | email/transaction.js:84-134 | stuffing line by line is stuffing the whole |
| DotStuffing.RestuffedUnchangedIff | email/transaction.js:136-167 | a received line comes out unchanged exactly when it ends in one CR LF and any opening dot is doubled |
| Dialogue.PartitionIff | email/outbound/hmail.js:750-914 | the three lists partition the recipients answered exactly when no RCPT got a success code other than 250 |
| Dialogue.SessionIsSafe | email/outbound/hmail.js:460-954 | over every run: at most one verdict unless a reply doubled it, one at the end unless a command was held back, no recipient listed more often than answered, all answered at the finish |
| Dialogue.Run | email/outbound/hmail.js:395-954 | the same over every sequence of lines, upgrades, writes and socket failures |
| Dialogue.FinishedListsFit | email/outbound/hmail.js:642-680 | the lists passed on fit the message's own life |
| MxDelivery.SortMx | email/outbound/hmail.js:1509-1523 | the records are kept, in ascending priority, whatever the coins |
| MxDelivery.TriesInOrder | email/outbound/hmail.js:295-393 | hosts are tried in the planned order, and the message is deferred once, and only when all have been tried |
| HMailItem.ReferenceCountIsSafe | email/outbound/hmail.js:642-680 | over every interleaving next_cb is called once per dequeue, the file removed at most once, never with a split outstanding or after a requeue |
| HMailItem.Run | email/outbound/hmail.js:1267-1486 | the same over every sequence of events |
| HMailItem.DeferralsAreBounded | email/outbound/hmail.js:1367-1412 | a message is deferred at most as often as there are intervals, across restarts |
| QFile.HostnameIsEscaped | email/outbound/qfile.js:10-16 | three replacements in a row escape each character once |
| QFile.EscapedRoundTrip | email/outbound/qfile.js:10-16 | the escape can be undone and leaves no separator |
| QFile.HostnameInjective | email/outbound/qfile.js:10-16 | different hosts stay different |
| QFile.EscapedTwiceIff | email/outbound/hmail.js:1394-1397 | escaping again is harmless exactly for hosts without special characters |
| QFile.PartsOfName | email/outbound/qfile.js:18-93 | a name reads back field by field exactly when its tag has no underscore |
| QFile.DeferralNameKeepsAttempts | email/outbound/hmail.js:1394-1397 | the name of a deferral keeps the attempts |
| QueueFiles.SendTransEmail | email/outbound/index.js:254-327 | with any fault of any delivery, and any race of the close event behind it: exactly when all deliveries are queued and pushed, what is left when not, and exactly when only whole messages stood under their own names after every file operation |
| QueueFiles.WrittenReadsBack | email/outbound/hmail.js:91-131 | a queue file reads back to the header and body written, byte for byte |
| QueueFiles.CutOffReads | email/outbound/hmail.js:91-131 | a file cut off in its header is never a message; one cut off behind it is one with a shorter body |
| QueueFiles.GetDeliveries | email/outbound/index.js:205-227 | one delivery per domain with all its recipients in order, or one per recipient |
| TimerQueue.OrderIsUnique | email/outbound/timer_queue.js:28-47 | the timers waiting determine the queue |
| RetrySchedule.ScheduleOrDefaults | email/outbound/config.js:57-138 | `none`, the old defaults, or one delay of at least five seconds per repetition |
| RetrySchedule.OldDefaultsAre | email/outbound/config.js:67-72 | the defaults double from 64 seconds and sum to 2^(max + 5) - 64 |
| RetrySchedule.ShortSpanIsBad | email/outbound/config.js:105-108 | a span too short is refused in spite of the missing return |
| DkimCanon.CanonicalIsRelaxed | email/dkim.js:402-437 | a line is canonicalized as in section 3.4.4 of RFC 6376 exactly when it has no inner CR or LF |
| DkimCanon.CanonicalTwice | email/dkim.js:402-437 | exactly when canonicalizing twice changes nothing |
| DkimBody.LinesOfChunk | email/dkim.js:527-537 | cutting into lines does not depend on the chunks |
| DkimBody.LinesAndRest | email/dkim.js:527-537 | cutting into lines loses and moves no byte |
| DkimBody.FedIsTrimmed | email/dkim.js:203-225 | holding blank lines back hashes the body without those at its end |
| DkimRfc.RelaxedInputIsRfc | email/dkim.js:203-225 | a relaxed body is hashed as section 3.4.4 of RFC 6376 has it exactly when no line holds a CR of its own |
| DkimRfc.SimpleInputIsRfc | email/dkim.js:203-225 | a simple body is hashed as section 3.4.3 of RFC 6376 has it exactly when some line is not blank |
| DkimAgree.VerifierHashes | email/dkim.js:473-601 | for every message and chunking each signature is fed the code's canonical form of the lines behind the header, without the blank ones at the end |
| DkimAgree.VerifierFollowsRfc | email/dkim.js:473-601 | and exactly when that is what RFC 6376 has it hash, for both canonicalizations |
| DkimAgree.SignerFollowsRfc | email/plugins/dkim_sign.js:34-100 | exactly when the signer hashes what section 3.4.3 of RFC 6376 has it hash |
| DkimAgree.SignerAndVerifierAgree | email/plugins/dkim_sign.js:34-100 | exactly when the two programs hash the same bytes of a message, over all chunkings |
| DkimAgree.AgreeIffBothFollow | email/plugins/dkim_sign.js:34-100 | they agree exactly when both follow section 3.4.3 of RFC 6376 |
| DkimHeader.PrintedParses | email/dkim.js:73-176 | the printed field reads back to the values printed, for all values without white space and `;`; it is refused exactly when one is empty or `from` is not signed |
| DkimHeader.SignedNamesReadBack | email/dkim.js:134-138 | the signed names come back in order |
| Spf.NoTargetTwice | email/spf.js:343-368 | no domain is the target of two includes or redirects, for every DNS |
| Spf.NestingIsBounded | email/spf.js:343-368 | includes and redirects nest at most eleven deep, cycles included |
| Spf.FirstResultWins | email/spf.js:283-335 | the first result of the mechanisms in record order, else the modifiers', else PermError over the limit |
| Spf.IncludeQualifier | email/spf.js:343-368 | exactly when an include's result is that of section 5.2 of RFC 4408 |
| Spf.ExcludedPasses | email/spf.js:343-368 | a record excluded passes |
| SpfLimit.LimitSees | email/spf.js:283-368 | for every DNS: all lookups are those the limit counts and those inside includes, and over ten of the former is PermError; no condition on a zone |
| SpfLimit.LimitHoldsForFlatIncludes | email/spf.js:283-368 | ten is the limit where the records included need no lookups |
| SpfLimit.MoreThanTenLookups | email/spf.js:343-368 | exactly which of a family of zones pass over more than the ten lookups of section 10.1 of RFC 4408 |
| SpfLimit.LookupsAreBounded | email/spf.js:343-368 | for every DNS a check counts fewer than 2^11 lookups, and fewer than 2^10 without PermError |
| SpfLimit.MostLookups | email/spf.js:343-368 | some check passes with 2^10 - 1 |
| HostPool.TurnHoldsAll | email/host_pool.js:142-174 | a turn holds each live slot once, or all slots when none is live |
| HostPool.OneRoundOfCalls | email/host_pool.js:142-174 | as many calls as live slots give each of them once, in cyclic order |
| DnsList.FirstPositiveIs | email/plugins/dns_list_base.js:135-150 | the first positive answer in the order of arrival |
| DnsList.ReportsOnce | email/plugins/dns_list_base.js:135-150 | the callback runs once, with the first positive answer to come or none |
| Greylist.PutOffForEver | email/plugins/greylist.js:477-515 | a record made by the update of one just forgotten keeps its key put off, whatever calls follow, for any keys |
| SmtpForward.QueuedMeansDelivered | email/plugins/queue/smtp_forward.js:239-321 | OK is reported once, and only when every recipient was in exactly one accepted message |
| RollingRestart.OneIsUp | email/server.js:174-180 | of two or more workers one is always up |
| Rooms.EmptyRoomsGo | webrtc/src/room/room.service.ts:181-290 | an empty room waits for a timer exactly when somebody has left it |
| HookEngine.HookRun.RunHooks | email/plugins.js:417-450 | a run comes to await a plugin or is answered; for a client that has gone it is abandoned |
| HookEngine.HookRun.RunNextHook | email/plugins.js:452-548 | a run goes on to await a plugin of its queue, or comes to its end; nothing runs for a client that has gone |
| HookEngine.HookRun.Callback | email/plugins.js:467-512 | only the first call of the newest closure's callback counts, and moves the run on; late, repeated and cancelled ones change nothing |
| HookEngine.HookRun.RunDenyHooks | email/plugins.js:417-450 | the nested deny run saves the rest of the queue, and awaits a plugin or reports; a rejection by a deny plugin loses the run |
| HookEngine.HookRun.DenyRespond | email/plugins.js:602-624 | an overridden rejection resumes behind its plugin, any other is reported; behind a deny plugin's rejection the closure calls itself |
| HookEngine.HookRun.TimeoutFires | email/plugins.js:519-527 | a timeout is a soft rejection by the awaited plugin, and nothing once it has answered |
| HookEngine.HookRun.RequiredHookStarts | email/plugins.js:417-450 | a required hook takes the queue, and cancels the closure under way for good, or overtakes it where an older closure's late call has hidden it |
| HookEngine.Registry.SortHooks | email/plugins.js:336-344 | sorting orders every hook and loses nothing |
| HookEngine.Registry.RegisterHook | email/plugins.js:113-134 | a hook is added with its priority held between -100 and 100 and the next registration number |
| DelayDeny.DelayDenyPlugin.HookDeny | email/plugins/delay_deny.js:9-99 | which rejections are set aside, and where they are kept |
| DelayDeny.DelayDenyPlugin.HookRcptOk | email/plugins/delay_deny.js:101-135 | the rejection a recipient is due, and what remains |
| DataPhase.Session.ProcessData | email/connection.js:398-417 | the lines kept and the buffer are a function of all bytes received, whatever the chunks |
| DataPhase.Session.ProcessBuffer | email/connection.js:418-529 | the loop with its folds terminates and leaves what that function says |
| DataPhase.Session.AccumulateData | email/connection.js:1579-1603 | exactly `.` CR LF and `.` LF end the message |
| DotStuffing.AddDotStuffingAndEnsureCrlf | email/transaction.js:84-134 | the two-cursor loop equals the byte-by-byte specification and stays within twice the input |
| DotStuffing.RestuffLine | email/transaction.js:136-167 | what add_data sends on for a body line is safe, unstuffs to the line normalised, and is the line itself exactly when that is well formed |
| Session.Connection.ResetTransaction | email/connection.js:650-664 | an open transaction is paused and marked for its reset; one being reset already, or none, is dropped at once |
| Session.Connection.ResetAndStart | email/connection.js:650-688 | the same for MAIL, HELO and EHLO, whose hook follows |
| Session.Connection.ResetRespond | email/connection.js:665-673 | whatever transaction there is ends, its counts stay in the totals, and the session resumes where it paused |
| Session.Connection.StartRespond | email/connection.js:665-688 | the closure of a reset starts the command's hook, with a new transaction for MAIL, before the session resumes |
| Session.Connection.DueResume | email/connection.js:703-712 | the resume behind it restores the state of the last pause, may overlap another reset, and reopens DATA exactly when that pause was the end of a message whose transaction is still open |
| Session.Connection.CmdMail | email/connection.js:1341-1402 | MAIL starts exactly one new transaction, behind the reset of the last |
| Session.Connection.MailRespond | email/connection.js:990-1047 | a rejected sender resets or disconnects |
| Session.Connection.CmdRcpt | email/connection.js:1403-1446 | a recipient is added and asked about; without a transaction nothing changes |
| Session.Connection.RcptRespond | email/connection.js:1120-1183 | a refused recipient is taken back and counted once, here and in the transaction |
| Session.Connection.RcptDone | email/connection.js:1048-1119 | a recipient answered stays exactly when accepted, and one counter moves with it |
| Session.Connection.CmdData | email/connection.js:1519-1542 | DATA is taken up only with a recipient, and notes how many are accepted |
| Session.Connection.DataRespond | email/connection.js:1543-1578 | a 354 reply follows the recipients noted |
| Session.Connection.DataDone | email/connection.js:1619-1662 | the three ways a message ends; only one of them asks the plugins |
| Session.Connection.DataPostRespond | email/connection.js:1663-1721 | a verdict of data_post is counted once, passed to the queue, or lost with the transaction |
| Session.Connection.MessageDone | email/connection.js:1764-1915 | an answered message bumps exactly one msg_count field |
| Session.Connection.QueueRespond | email/connection.js:1841-1897 | what no plugin queues is deferred |
| Session.Connection.QueueOutboundRespond | email/connection.js:1764-1810 | a plugin's verdict is counted, else the outbound queue decides |
| Session.Connection.SendEmailDone | email/connection.js:1810-1840 | the outbound queue's refusal is counted as a rejection |
| Dialogue.Session.OnLine | email/outbound/hmail.js:682-954 | every line from the remote end; a second verdict comes exactly of the replies named in Doubles; LMTP finishes at the n-th reply for n accepted recipients |
| Dialogue.Session.OnReply | email/outbound/hmail.js:742-954 | an error about the whole message gives the verdict of its class, behind the next host if the socket is dead |
| Dialogue.Session.Advance | email/outbound/hmail.js:841-954 | the command that follows each success reply |
| Dialogue.Session.DataSent | email/outbound/hmail.js:915-928 | the end of the message is announced, unless the socket is dead or in the clear |
| Dialogue.Session.ProcessEhlo | email/outbound/hmail.js:511-640 | what follows the capabilities |
| Dialogue.Session.LmtpReply | email/outbound/hmail.js:750-937 | a refusal is charged to the first accepted recipient; sizes are kept |
| Dialogue.Session.SendCommand | email/outbound/hmail.js:460-495 | an unwritable socket gives the message to the next host, once; a command that TLS is missing for stops it without a verdict |
| Dialogue.Session.SocketFails | email/outbound/hmail.js:405-430 | a socket error gives the message to the next host, once |
| MxDelivery.HMail.TryDeliver | email/outbound/hmail.js:295-348 | the next attempt, or the deferral when none is left |
| MxDelivery.HMail.NextHost | email/outbound/hmail.js:350-393 | a failed host leads to the next of the plan, or to the deferral exactly when it was the last |
| HMailItem.HMail.Delay | email/outbound/hmail.js:196-205 | a delayed message frees its place and waits under its old name, with its accounts kept |
| HMailItem.HMail.FinishFails | email/outbound/hmail.js:642-680 | deferred recipients are split off, or are the whole message |
| HMailItem.HMail.FinishBounces | email/outbound/hmail.js:642-680 | bounced recipients likewise |
| HMailItem.HMail.FinishEnd | email/outbound/hmail.js:642-680 | the delivered hook keeps the last reference, or it is given up |
| HMailItem.HMail.WholeTempFail | email/outbound/hmail.js:1367-1379 | a message that fails as a whole is deferred, or bounced once the retries are used up, and its accounts stay right |
| HMailItem.HMail.FailSplitDone | email/outbound/hmail.js:1426-1486 | the split-off message is sound and the original gives up a reference |
| HMailItem.HMail.BounceSplitDone | email/outbound/hmail.js:1426-1486 | likewise for bounced recipients |
| HMailItem.HMail.DeferredRespond | email/outbound/hmail.js:1381-1393 | a deferral goes on to the rename unless a plugin takes over |
| HMailItem.HMail.Renamed | email/outbound/hmail.js:1394-1412 | the new name stores the failures so far, and next_cb is called |
| HMailItem.HMail.BounceMessage | email/outbound/hmail.js:1289-1327 | a bounce that is queued gives up the message; one that cannot be made or queued is a double bounce, and the accounts stay right |
| HMailItem.HMail.Restart | email/outbound/hmail.js:46-66 | after a restart only the file name tells how often delivery failed |
| QueueFiles.ProcessDelivery | email/outbound/index.js:294-327 | one file under its own name, or none, unless a rename behind an error wins; when the callback is called twice |
| QueueFiles.WriteAll | email/outbound/index.js:324-345 | header and chunks go to the temporary file only, up to where a write fails |
| QueueFiles.TakeBack | email/outbound/index.js:270-277 | a failure removes exactly the files queued before it |
| QueueFiles.QueueDir.DeleteDotFiles | email/outbound/queue.js:281-290 | start-up removes exactly the temporary files |
| TimerQueue.TimerQueue.Add | email/outbound/timer_queue.js:28-47 | the timer goes in behind all that are not later; when it throws, exactly |
| TimerQueue.TimerQueue.Discard | email/outbound/timer_queue.js:49-58 | exactly the first timer of that id goes |
| TimerQueue.TimerQueue.Fire | email/outbound/timer_queue.js:60-69 | exactly the timers due run, soonest first, first come first served |
| TimerQueue.TimerQueue.Drain | email/outbound/timer_queue.js:75-81 | all run, in order |
| RetrySchedule.OutboundConfig.SetTempFailIntervals | email/outbound/config.js:57-138 | the nested loops store what the specification of the setting says |
| DkimCanon.Canonicalize | email/dkim.js:402-437 | the byte loop equals its specification on every line |
| DkimSign.DKIMSignStream.Write | email/plugins/dkim_sign.js:34-85 | the signer's state is a function of the bytes written, whatever the chunks |
| DkimSign.DKIMSignStream.End | email/plugins/dkim_sign.js:87-100 | the bytes hashed are that function of the whole message |
| DkimVerify.DKIMObject.AddBodyLine | email/dkim.js:203-225 | one line for one signature |
| DkimVerify.MakeObjects | email/dkim.js:546-570 | one object per signature field, in order |
| DkimVerify.DKIMVerifyStream.Write | email/dkim.js:473-601 | the verifier's state is a function of the bytes received, whatever the chunks |
| DkimVerify.DKIMVerifyStream.End | email/dkim.js:473-618 | the end of the stream completes the last line, and the header if it is still open |
| DkimHeader.PrintHeader | email/plugins/dkim_sign.js:121-128 | the loop folds the signature at 74 and then 76 characters |
| DkimHeader.ParseTags | email/dkim.js:75-86 | the loop over the tags equals its specification |
| Spf.SPF.CheckHost | email/spf.js:160-336 | the objects with their copied counters and shared set equal the recursive evaluation |
| Spf.SPF.MechChain | email/spf.js:306-335 | mechanisms in order, with the limit before each |
| Spf.SPF.MechInclude | email/spf.js:343-368 | an include, its object, and its result |
| HostPool.HostPool.GetHost | email/host_pool.js:142-174 | the head of the turn is handed out and moves to its end |
| HostPool.HostPool.MarkDead | email/host_pool.js:58-82 | the turn passes a failed host over, as long as another is live |
| HostPool.HostPool.MarkAlive | email/host_pool.js:58-82 | a host that is back has its slots in the turn again |
| DnsList.Lookups.Answered | email/plugins/dns_list_base.js:101-150 | one answer of one zone, in any order |
| DnsList.ZoneLists.DisableZone | email/plugins/dns_list_base.js:201-220 | a zone moves to the disabled ones, and none is lost |
| Greylist.Greylist.ProcessTuple | email/plugins/greylist.js:226-256 | a sender is promoted exactly when its record is inside the window, and then an earlier sighting of the same key was |
| SmtpForward.Forward.OnSuccess | email/plugins/queue/smtp_forward.js:271-312 | the next command, for one message or one per recipient |
| SmtpForward.Forward.OnDot | email/plugins/queue/smtp_forward.js:297-307 | an accepted message, and the next or the end |
| RollingRestart.Server.Graceful | email/server.js:155-180 | a second request is ignored; a single worker leaves a gap |
| RollingRestart.Server.Listening | email/server.js:211-233 | a restart ends exactly when every worker has been replaced |
| Rooms.RoomService.Leave | webrtc/src/room/room.service.ts:181-196 | the last to leave starts the timer |
| Rooms.RoomService.Join | webrtc/src/room/room.service.ts:86-168 | a member joins the map all copies share |
| Rooms.RoomService.UpdateRoom | webrtc/src/room/room.service.ts:240-277 | the copy of a room keeps its map of members |
| Rooms.RoomService.DeleteTimer | webrtc/src/room/room.service.ts:279-290 | a timer removes a listed room exactly when it has no members now, however old its room object |

## Left out

- HookEngine.RespondsOnceWithOutcome: not for `connect_init`, `disconnect` and `log`, which have rules of
  their own. A run is followed up to the start of a required hook that finds nobody at work although a plugin is
  awaited (`Overtaken`): that plugin's answer then goes on in the required hook's queue.
- DelayDeny.DelayedMeansRejected: everything is delayed, the session does not relay, and no plugin before
  delay_deny says OK on rcpt_ok; the re-reading of delay_deny notes on the data hook is not modelled.
- DataPhase.Session.ProcessData: a run of bytes over the limit behind the end of the message still gets one
  fold (`Behind`); `max_bytes`, the limit on MIME parts, command-mode lines and early talkers are left out.
- Session.Run: what follows once a due resume has reopened DATA with a transaction (`reopened`): a second end of data
  starts a second data_post hook, and the verdict of that may reopen the session while a recipient is being asked
  about. Where two hooks overlap and share the engine's queue, each responder is taken to run at most once. What the
  outbound queue's callback does after a disconnect is left out, and a reset begun by a disconnect is taken as
  immediate.
- Dialogue.SessionIsSafe: LMTP refusals are charged to the head of the accepted list, so sizes are right
  though names need not be; TLS upgrades and pooled sockets are events without content.
- Dialogue.Session.ProcessEhlo: the look-up of hosts known to fail TLS answers at once; where it asks Redis, a second
  EHLO reply may come in between and start the step twice.
- MxDelivery.TriesInOrder: the addresses of a record are a function of the record; connections bound to a
  local address, and plugins that name the hosts, are left out.
- HMailItem.Run: an attempt has one verdict; a second one, which `Doubles` in `Dialogue.dfy` shows possible, is not
  among the events.
- HMailItem.ReferenceCountIsSafe: errors of the file system are left out, and file names whose attempts are
  no number; a split-off message starts with no failures, as its new name says.
- QFile.PartsOfName: `parseInt` is modelled on digits; white space, signs and hexadecimal are not.
- QueueFiles.SendTransEmail: unlinking succeeds, and the unlinks asked for are done before the process ends; names are
  new, as the counter, time, process and random tag make them. A header of 2^32 bytes makes the write throw.
- QueueFiles.GetDeliveries: the order of domains that look like array indices.
- TimerQueue.TimerQueue.Fire: callbacks that add timers.
- DkimVerify.DKIMVerifyStream.Write: which fields are signatures, and with which canonicalization, is an
  arbitrary function; headers are bytes, not text, so non-ASCII letters that lower-case to ASCII do not
  count. The key lookup and the overall result, which is the last result and not the best, are left out.
- DkimAgree.VerifierFollowsRfc: the lines are those the verifier sees, for which a bare LF ends a line too.
- DkimAgree.SignerAndVerifierAgree: messages in which every LF follows a CR and the header ends, as the
  server's own message stream delivers them.
- DkimHeader.PrintedParses: the checks of t and x, which the printed field never has, and U+2028 and U+2029
  in a field; header canonicalization.
- Spf.SPF.CheckHost: text of records, macros and address comparison are part of the DNS's arbitrary answer;
  each lookup calls back once (an MX or PTR mechanism with failing addresses may do so twice); domains named
  like members of every JavaScript object count as visited in the code.
- HostPool.HostPool.GetHost: reading and shuffling the list, and probing.
- DnsList.ReportsOnce: statistics; a lookup of nothing, which reports at once.
- SmtpForward.QueuedMeansDelivered: authentication, dead senders, and messages that have no recipient.
- RollingRestart.OneIsUp: workers that crash.
- Rooms.RoomService.Join: admission, messages, and the start time, which a delayed callback writes to the
  room object of its time and an update in between loses.
- Greylist.Greylist.ProcessTuple: white records, which keys a sender gets, and the configured lists; database
  errors throw.
- The parameter parser `rfc1869.js`, the delivery queue's own counters, bounce texts, process
  start-up, and the `assistant/`, `smtp/` and `sync/` services: left out as mostly text matching, input and
  output, or simple map updates.
- Cryptography: a hash or signature stands for the bytes it is given.
