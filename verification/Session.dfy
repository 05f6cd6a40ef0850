/**
 The bookkeeping of an inbound session (email/connection.js): transactions, recipients, and the counts of
 recipients and messages that the log line of a disconnect reports.
 The methods of Connection are the events of a session: commands, lines that end the DATA phase, and the
 answers of hooks, each of which comes when it comes. A reset runs its hook, then the closure it was given,
 then resumes the session; whatever that closure starts may have gone on by then, answered at once by the
 plugins and the lines buffered, so the resume is an event of its own. It may reopen the session while
 another reset is under way, which later drops whatever transaction there is: `overlapped` notes it. And it may
 bring back DATA while a hook asks about the message that has ended: `reopened` notes that, and ends the model.
 `writable` says whether the reply could be written; if not, the session fails.
 */
module Session {
  import Bytes
  import opened HookEngine
  import opened Numbers
  import opened Options

  type Address = string

  /** Which of the three counters an answer bumps. */
  datatype Action = Accept | TempFail | Reject

  datatype Refusals = Refusals(tempfail: int, reject: int)

  datatype Counts = Counts(accept: int, refused: Refusals)
  {
    function Bump(a: Action): Counts {
      match a
      case Accept => this.(accept := accept + 1)
      case TempFail => this.(refused := refused.(tempfail := refused.tempfail + 1))
      case Reject => this.(refused := refused.(reject := refused.reject + 1))
    }

    function Get(a: Action): int {
      match a
      case Accept => accept
      case TempFail => refused.tempfail
      case Reject => refused.reject
    }
  }

  function Total(c: Counts): int {
    c.accept + c.refused.tempfail + c.refused.reject
  }

  const ZERO := Counts(0, Refusals(0, 0))

  /** One of the three counts, summed. */
  function SumOf(past: seq<Counts>, a: Action): int {
    if past == [] then 0 else SumOf(past[..|past| - 1], a) + past[|past| - 1].Get(a)
  }

  lemma SumSnoc(past: seq<Counts>, c: Counts, a: Action)
    ensures SumOf(past + [c], a) == SumOf(past, a) + c.Get(a)
  {
    assert (past + [c])[..|past|] == past;
  }

  lemma SumOfNone(past: seq<Counts>)
    requires past == []
    ensures SumOf(past, Accept) == 0 && SumOf(past, TempFail) == 0 && SumOf(past, Reject) == 0
  {
  }

  /** Gone: disconnecting or disconnected. */
  datatype State = Cmd | Data | PauseSmtp | PauseData | Gone

  /** What follows once a reset is through. */
  datatype Then = Nothing | ResumeSession | BeginTransaction | OtherHook
  {
    /** A command waits for the reset, to start its hook. */
    predicate Starts() { BeginTransaction? || OtherHook? }
  }

  /** The hook under way, and the outbound queue as one more that answers; the hook of a reset aside. */
  datatype Pending =
    | Idle | MailHook | RcptHook | RcptOkHook | DataHook | MaxDataHook
    | DataPostHook | QueueHook | QueueOutboundHook | Outbound | QueueOkHook
    | RsetHook | CommandHook
  {
    predicate Recipient() { RcptHook? || RcptOkHook? }

    /** A verdict on a message that went through DATA is due. */
    predicate Message() { DataPostHook? || QueueHook? || QueueOutboundHook? || Outbound? || QueueOkHook? }

    predicate AboutTransaction() { MailHook? || Recipient() || DataHook? || MaxDataHook? || Message() }

    function Due(): int { if Message() then 1 else 0 }
  }

  /** A retval that answers a recipient: the counter it bumps, and whether the session ends. */
  datatype Answer = Answer(action: Action, disconnects: bool)

  function Denied(r: Ret): Option<Answer> {
    match r
    case Deny => Some(Answer(Reject, false))
    case DenyDisconnect => Some(Answer(Reject, true))
    case DenySoft => Some(Answer(TempFail, false))
    case DenySoftDisconnect => Some(Answer(TempFail, true))
    case _ => None
  }

  class Transaction {
    var rcptTo: seq<Address>
    var rcptCount: Counts
    var resetting: bool
    ghost var accepted: seq<Address>   // the recipients answered with 250

    constructor ()
      ensures rcptTo == [] && rcptCount == ZERO && !resetting && accepted == []
    {
      rcptTo, rcptCount, resetting, accepted := [], ZERO, false, [];
    }
  }

  /** How the state, the one to resume, the hook under way and the resets go together: at most one hook or
      starting reset, and none while commands are taken. `open` and `rcpts` say that there is a transaction,
      and that it has recipients. */
  predicate InPhase(state: State, prev: Option<State>, hook: Pending, starting: Option<Then>, open: bool,
      rcpts: bool) {
    && (state == Gone ==> hook == Idle && starting.None? && !open)
    && (state == Cmd ==> hook == Idle && starting.None?)
    && (prev == Some(Cmd) ==> (state == PauseData || state == Gone) && hook == Idle && starting.None?)
    && (starting.Some? ==>
          && starting.value.Starts() && hook == Idle && (state == PauseData || state == PauseSmtp)
          && (prev == None || prev == Some(PauseSmtp)))
    && (state == Data && open ==> hook == Idle && rcpts)
    && (hook == DataHook && open ==> rcpts)
    && prev != Some(PauseData) && prev != Some(Gone)
  }

  /** The order of a session without overlap: one reset at a time, and the session paused for it. */
  predicate InOrder(state: State, prev: Option<State>, hook: Pending, starting: Option<Then>, resets: nat, open: bool,
      resetting: bool) {
    && resets + One(starting.Some?) <= 1
    && (resets > 0 || starting.Some? ==>
          state == PauseData && hook == Idle && resetting && prev == Some(if resets > 0 then Cmd else PauseSmtp))
    && (resetting ==> resets > 0 || starting.Some?)
    && (prev == Some(Cmd) ==> resets > 0)
    && (hook.AboutTransaction() ==> open)
    && (state == Data || prev == Some(Data) ==> open)
  }

  class Connection {
    var state: State
    var prevState: Option<State>
    var hook: Pending
    var starting: Option<Then>         // the reset that MAIL, HELO or EHLO waits for, under way
    var resets: nat                    // the other resets under way
    var dues: nat                      // closures of starting resets whose resume is still to come
    var transaction: Transaction?
    var rcptCount: Counts
    var msgCount: Counts
    var tranCount: nat
    ghost var past: seq<Counts>        // the recipient counts of the transactions that are over
    ghost var posted: int              // messages given to the data_post hook
    ghost var lost: int                // those of them whose responder found no transaction
    ghost var overlapped: bool         // the session has been resumed with a reset under way
    var reopened: bool                 // a due resume has brought back DATA; the model follows no further
    ghost var vouched: int             // the recipients accepted when DATA was taken up
    ghost var goAheads: seq<int>       // the same, at each 354 reply

    ghost function Open(): set<Transaction>
      reads this`transaction
    {
      if transaction == null then {} else {transaction}
    }

    ghost function Current(a: Action): int
      reads this`transaction, (Open())`rcptCount
    {
      if transaction == null then 0 else transaction.rcptCount.Get(a)
    }

    ghost predicate Accounts()
      reads this`rcptCount, this`past, this`tranCount, this`transaction, (Open())`rcptCount
    {
      && rcptCount.Get(Accept) == SumOf(past, Accept) + Current(Accept)
      && rcptCount.Get(TempFail) == SumOf(past, TempFail) + Current(TempFail)
      && rcptCount.Get(Reject) == SumOf(past, Reject) + Current(Reject)
      && tranCount == |past| + (if transaction == null then 0 else 1)
    }

    /** Each message given to data_post is counted, due, or lost; without overlap none is lost. Each 354 reply
        had an accepted recipient. */
    ghost predicate Messages()
      reads this`posted, this`lost, this`msgCount, this`hook, this`state, this`goAheads, this`vouched, this`overlapped
    {
      Owed(hook.Due()) && (hook == DataHook ==> vouched > 0)
    }

    ghost predicate Owed(due: int)
      reads this`posted, this`lost, this`msgCount, this`state, this`goAheads, this`overlapped
    {
      && (state != Gone ==> posted == Total(msgCount) + due + lost)
      && lost >= 0 && (!overlapped ==> lost == 0)
      && forall i :: 0 <= i < |goAheads| ==> goAheads[i] > 0
    }

    /** The recipients of the transaction are those accepted, and the one being asked about. */
    ghost predicate Recipients()
      reads this`hook, this`transaction, (Open())`rcptTo, (Open())`accepted, (Open())`rcptCount
    {
      transaction != null ==>
        && |transaction.accepted| == transaction.rcptCount.accept
        && if hook.Recipient() then
             transaction.rcptTo != [] && transaction.rcptTo[..|transaction.rcptTo| - 1] == transaction.accepted
           else transaction.rcptTo == transaction.accepted
    }

    ghost predicate Phase()
      reads this`state, this`prevState, this`hook, this`starting, this`transaction, this`reopened, (Open())`rcptTo
    {
      && !reopened
      && InPhase(state, prevState, hook, starting, transaction != null,
                 transaction != null && transaction.rcptTo != [])
    }

    ghost predicate Order()
      reads this`state, this`prevState, this`hook, this`starting, this`resets, this`transaction, this`overlapped
      reads (Open())`resetting
    {
      !overlapped && state != Gone ==>
        InOrder(state, prevState, hook, starting, resets, transaction != null,
                transaction != null && transaction.resetting)
    }

    /** No method brings back an old transaction. */
    twostate predicate SameOrNew()
      reads this`transaction
    {
      transaction == old(transaction) || transaction == null || fresh(transaction)
    }

    ghost predicate Valid()
      reads this, transaction
    {
      Books() && Phase() && Order()
    }

    /** What the log line of a disconnect is made of; it is right even when the session has been reopened. */
    ghost predicate Books()
      reads this, transaction
    {
      Accounts() && Messages() && Recipients()
    }

    constructor ()
      ensures Valid() && state == Cmd && prevState == None && transaction == null && resets == dues == 0
      ensures rcptCount == ZERO && msgCount == ZERO && posted == lost == 0 && !overlapped
    {
      state, prevState, hook, starting, resets, dues, reopened := Cmd, None, Idle, None, 0, 0, false;
      transaction, rcptCount, msgCount, tranCount := null, ZERO, ZERO, 0;
      past, posted, lost, overlapped, vouched, goAheads := [], 0, 0, false, 0, [];
      new;
      hide SumOf, InOrder;
      SumOfNone(past);
    }

    /** A transaction is open, and no message has gone to the data_post hook yet. */
    ghost predicate NothingSent()
      reads this, transaction
    {
      && transaction != null && transaction.rcptTo == [] && starting.None?
      && posted == lost == 0 && msgCount == ZERO && !overlapped
    }

    // ----- replies, pauses, and the end -----

    /** A responder has been called: no hook is under way. */
    ghost predicate Answering()
      reads this, transaction
    {
      Accounts() && Phase() && Order() && state != Gone && hook == Idle && starting.None? && prevState != Some(Cmd)
    }

    /** respond, up to the closure it runs; false when the write failed and the session with it. */
    method Respond(writable: bool) returns (ok: bool)
      requires Answering()
      modifies this`state, this`transaction, this`past
      ensures ok == writable && Accounts() && Phase() && Order()
      ensures ok ==> state == Cmd && transaction == old(transaction) && past == old(past)
      ensures !ok ==> state == Gone && transaction == null
    {
      if !writable {
        Disconnect();
        return false;
      }
      state := Cmd;
      return true;
    }

    method Disconnect()
      requires Accounts() && Phase() && state != Gone && hook == Idle && starting.None?
      modifies this`state, this`transaction, this`past
      ensures Accounts() && Phase() && Order() && state == Gone && transaction == null
    {
      state := Gone;
      DropTransaction();
    }

    method DropTransaction()
      requires Accounts()
      modifies this`transaction, this`past
      ensures Accounts() && transaction == null
      ensures old(transaction) == null ==> past == old(past)
      ensures old(transaction) != null ==> past == old(past) + [old(transaction.rcptCount)]
    {
      if transaction != null {
        SumSnoc(past, transaction.rcptCount, Accept);
        SumSnoc(past, transaction.rcptCount, TempFail);
        SumSnoc(past, transaction.rcptCount, Reject);
        past := past + [transaction.rcptCount];
        transaction := null;
      }
    }

    method Pause()
      requires state != Gone
      modifies this`state, this`prevState
      ensures state == PauseData
      ensures prevState == if old(state) != PauseData then Some(old(state)) else old(prevState)
    {
      if state != PauseData {
        prevState := Some(state);
      }
      state := PauseData;
    }

    /** The state is the one from before the last pause, if none has been resumed since. */
    method Resume()
      modifies this`state, this`prevState
      ensures old(state) == Gone ==> state == Gone && prevState == old(prevState)
      ensures old(state) != Gone ==>
                prevState == None && state == if old(prevState).Some? then old(prevState).value else old(state)
    {
      if state == Gone { return; }
      if prevState.Some? {
        state := prevState.value;
        prevState := None;
      }
    }

    // ----- resets -----

    /** reset_transaction, for a closure that starts no hook. A transaction that is being reset already is
        dropped at once, like one that is not there. */
    method ResetTransaction(andThen: Then)
      requires Valid() && state == Cmd && !andThen.Starts()
      requires andThen.ResumeSession? && !overlapped ==> transaction != null
      modifies this`state, this`prevState, this`resets, this`transaction, this`past, (Open())`resetting
      ensures SameOrNew() && Valid()
      ensures old(WillPause()) ==>
                resets == old(resets) + 1 && state == PauseData && prevState == Some(Cmd)
                    && transaction == old(transaction)
      ensures !old(WillPause()) ==> resets == old(resets) && transaction == null
    {
      hide SumOf, Total;
      if transaction != null && !transaction.resetting {
        BeginReset();
      } else {
        ResetAtOnce(andThen == ResumeSession);
      }
    }

    method BeginReset()
      requires Valid() && state == Cmd && WillPause()
      modifies this`state, this`prevState, this`resets, transaction`resetting
      ensures Valid() && resets == old(resets) + 1 && state == PauseData && prevState == Some(Cmd)
    {
      hide SumOf, Total;
      PauseForReset();
      resets := resets + 1;
    }

    method ResetAtOnce(resumes: bool)
      requires Valid() && state == Cmd && !WillPause()
      requires resumes && !overlapped ==> transaction != null
      modifies this`state, this`prevState, this`transaction, this`past
      ensures Valid() && transaction == null
    {
      hide SumOf, Total;
      DropTransaction();
      if resumes {
        Resume();
      }
    }

    ghost predicate WillPause()
      reads this`transaction, transaction
    {
      transaction != null && !transaction.resetting
    }

    /** The same for a command whose hook is to follow. */
    method ResetAndStart(andThen: Then)
      requires Valid() && state == PauseSmtp && hook == Idle && starting.None? && prevState != Some(Cmd)
               && andThen.Starts()
      modifies this`state, this`prevState, this`hook, this`starting, this`transaction, this`past, this`tranCount
      modifies (Open())`resetting
      ensures SameOrNew() && Valid()
      ensures old(WillPause()) ==> starting == Some(andThen) && state == PauseData && transaction == old(transaction)
      ensures !old(WillPause()) ==>
                Started(andThen) && state == PauseSmtp && tranCount == old(tranCount) + NewOnes(andThen)
    {
      hide SumOf, Total;
      if transaction != null && !transaction.resetting {
        BeginStartingReset(andThen);
      } else {
        StartAtOnce(andThen);
      }
    }

    method BeginStartingReset(andThen: Then)
      requires Valid() && state == PauseSmtp && hook == Idle && starting.None? && prevState != Some(Cmd)
               && andThen.Starts()
      requires WillPause()
      modifies this`state, this`prevState, this`starting, transaction`resetting
      ensures Valid() && starting == Some(andThen) && state == PauseData
    {
      hide SumOf, Total;
      PauseForReset();
      starting := Some(andThen);
    }

    method StartAtOnce(andThen: Then)
      requires Valid() && CanStart() && state == PauseSmtp && andThen.Starts() && !WillPause()
      modifies this`hook, this`transaction, this`past, this`tranCount
      ensures SameOrNew() && Valid() && Started(andThen) && tranCount == old(tranCount) + NewOnes(andThen)
    {
      hide SumOf, Total;
      DropTransaction();
      Start(andThen);
    }

    method PauseForReset()
      requires transaction != null && state != Gone && state != PauseData && Accounts() && Recipients()
      modifies this`state, this`prevState, transaction`resetting
      ensures state == PauseData && prevState == Some(old(state)) && transaction.resetting
      ensures Accounts() && Recipients() && transaction.rcptTo == old(transaction.rcptTo)
    {
      Pause();
      transaction.resetting := true;
    }

    function NewOnes(andThen: Then): nat {
      One(andThen.BeginTransaction?)
    }

    twostate predicate Started(andThen: Then)
      reads this`hook, this`transaction, this`starting, (Open())`rcptTo
    {
      && starting.None? && hook == (if andThen.BeginTransaction? then MailHook else CommandHook)
      && if andThen.BeginTransaction? then transaction != null && fresh(transaction) && transaction.rcptTo == []
         else transaction == null
    }

    /** The closure of a reset that a command waits for. */
    method Start(andThen: Then)
      requires Valid() && CanStart() && transaction == null && andThen.Starts()
      modifies this`hook, this`transaction, this`tranCount
      ensures Valid() && Started(andThen) && tranCount == old(tranCount) + NewOnes(andThen)
    {
      hide SumOf, Total;
      if andThen == BeginTransaction {
        NewTransaction();
        hook := MailHook;
      } else {
        hook := CommandHook;
      }
    }

    method NewTransaction()
      requires Valid() && CanStart() && transaction == null
      modifies this`transaction, this`tranCount
      ensures Valid() && transaction != null && fresh(transaction) && transaction.rcptTo == []
      ensures tranCount == old(tranCount) + 1
    {
      hide SumOf, Total;
      tranCount := tranCount + 1;
      transaction := new Transaction();
    }

    /** No hook is under way, and no command is awaited. */
    ghost predicate CanStart()
      reads this`state, this`prevState, this`hook, this`starting
    {
      (state == PauseSmtp || state == PauseData) && hook == Idle && starting.None? && prevState != Some(Cmd)
    }

    /** reset_transaction_respond, for a reset no command waits for: whatever transaction there is now is
        dropped, and the session resumes. */
    method ResetRespond()
      requires Valid() && state != Gone && resets > 0
      modifies this`state, this`prevState, this`resets, this`transaction, this`past, this`overlapped
      ensures Valid() && transaction == null && resets == old(resets) - 1
      ensures state == if old(prevState).Some? then old(prevState).value else old(state)
      ensures !old(overlapped) ==> !overlapped && state == Cmd
    {
      hide SumOf, Total;
      DropTransaction();
      ResumeReset();
    }

    method ResumeReset()
      requires Accounts() && Messages() && Phase() && state != Gone && resets > 0 && transaction == null
      requires !overlapped ==> resets == 1 && starting.None? && hook == Idle && prevState == Some(Cmd)
      modifies this`state, this`prevState, this`resets
      ensures Valid() && resets == old(resets) - 1
      ensures state == if old(prevState).Some? then old(prevState).value else old(state)
    {
      hide SumOf, Total;
      resets := resets - 1;
      Resume();
    }

    /** reset_transaction_respond, up to the closure's return. */
    method StartRespond()
      requires Valid() && starting.Some?
      modifies this`hook, this`starting, this`dues, this`transaction, this`past, this`tranCount
      ensures SameOrNew() && Valid() && dues == old(dues) + 1
      ensures Started(old(starting).value) && tranCount == old(tranCount) + NewOnes(old(starting).value)
    {
      var andThen := starting.value;
      EndStartingReset();
      Start(andThen);
    }

    method EndStartingReset()
      requires Valid() && starting.Some?
      modifies this`starting, this`dues, this`transaction, this`past
      ensures Valid() && CanStart() && transaction == null && dues == old(dues) + 1
    {
      hide SumOf, Total;
      DropTransaction();
      starting := None;
      dues := dues + 1;
    }

    /** The resume behind it. When a message has ended in between, it brings back DATA under the hook that asks
        about the message. */
    method DueResume()
      requires Valid() && dues > 0
      modifies this`state, this`prevState, this`dues, this`overlapped, this`reopened
      ensures Books() && (!reopened ==> Valid()) && dues == old(dues) - 1
      ensures state == if old(prevState).Some? && old(state) != Gone then old(prevState).value else old(state)
      ensures overlapped == (old(overlapped) || resets > 0 || starting.Some?)
      ensures reopened <==> old(state) != Gone && old(prevState) == Some(Data) && transaction != null
    {
      NoteOverlap();
      ResumeDue();
    }

    ghost method NoteOverlap()
      requires Valid()
      modifies this`overlapped
      ensures Valid() && overlapped == (old(overlapped) || resets > 0 || starting.Some?)
    {
      hide SumOf, Total;
      overlapped := overlapped || resets > 0 || starting.Some?;
    }

    method ResumeDue()
      requires Valid() && dues > 0 && (resets > 0 || starting.Some? ==> overlapped)
      modifies this`state, this`prevState, this`dues, this`reopened
      ensures Books() && (!reopened ==> Valid()) && dues == old(dues) - 1
      ensures state == if old(prevState).Some? && old(state) != Gone then old(prevState).value else old(state)
      ensures reopened <==> old(state) != Gone && old(prevState) == Some(Data) && transaction != null
    {
      hide SumOf, Total;
      dues := dues - 1;
      reopened := state != Gone && prevState == Some(Data) && transaction != null;
      Resume();
    }

    /** A reset that starts cancels the plugin of one under way, and so the reset. */
    method ResetCancelled()
      requires Valid() && resets > 1
      modifies this`resets
      ensures Valid() && resets == old(resets) - 1
    {
      resets := resets - 1;
    }

    // ----- commands -----

    /** A line in command mode, and the start of its command. */
    method Command()
      requires Valid() && state == Cmd
      modifies this`state
      ensures Valid() && state == PauseSmtp && hook == Idle && starting.None? && prevState != Some(Cmd)
    {
      hide SumOf, Total;
      state := PauseSmtp;
    }

    /** A command that is refused, or has nothing more to do. */
    method Reply(writable: bool)
      requires Valid() && state != Gone && hook == Idle && starting.None? && prevState != Some(Cmd)
      modifies this`state, this`transaction, this`past
      ensures SameOrNew() && Valid()
      ensures if writable then state == Cmd && transaction == old(transaction) else state == Gone
    {
      hide SumOf, Total;
      var ok := Respond(writable);
    }

    /** cmd_mail; `good` when the line is accepted. */
    method CmdMail(good: bool, writable: bool)
      requires Valid() && state == Cmd
      modifies this`state, this`prevState, this`hook, this`starting, this`transaction, this`past, this`tranCount
      modifies (Open())`resetting
      ensures SameOrNew() && Valid()
      ensures !good && writable ==> state == Cmd && transaction == old(transaction)
      ensures good && !old(WillPause()) ==> Started(BeginTransaction) && tranCount == old(tranCount) + 1
      ensures good && old(WillPause()) ==> starting == Some(BeginTransaction) && transaction == old(transaction)
    {
      hide SumOf, Total;
      Command();
      if good {
        ResetAndStart(BeginTransaction);
      } else {
        Reply(writable);
      }
    }

    /** HELO and EHLO. */
    method CmdEhlo()
      requires Valid() && state == Cmd
      modifies this`state, this`prevState, this`hook, this`starting, this`transaction, this`past, this`tranCount
      modifies (Open())`resetting
      ensures SameOrNew() && Valid()
      ensures if old(WillPause()) then starting == Some(OtherHook) && transaction == old(transaction)
              else hook == CommandHook && transaction == null
    {
      hide SumOf, Total;
      Command();
      ResetAndStart(OtherHook);
    }

    /** RSET, and any other command that only runs a hook. */
    method CmdHook(resets: bool)
      requires Valid() && state == Cmd
      modifies this`state, this`hook
      ensures Valid() && hook == if resets then RsetHook else CommandHook
    {
      hide SumOf, Total;
      Command();
      hook := if resets then RsetHook else CommandHook;
    }

    /** A responder whose hook leaves the transaction alone. */
    method CommandRespond(writable: bool)
      requires Valid() && hook == CommandHook
      modifies this`state, this`hook, this`transaction, this`past
      ensures SameOrNew() && Valid()
      ensures if writable then state == Cmd && transaction == old(transaction) else state == Gone
    {
      hook := Idle;
      Reply(writable);
    }

    /** A responder that replies, and then resets the transaction or ends the session. */
    method ReplyAndReset(disconnects: bool, writable: bool)
      requires Valid() && state != Gone && hook == Idle && starting.None? && prevState != Some(Cmd)
      modifies this`state, this`prevState, this`resets, this`transaction, this`past, (Open())`resetting
      ensures SameOrNew() && Valid()
      ensures !writable || disconnects ==> state == Gone
      ensures writable && !disconnects ==>
                if old(WillPause()) then resets == old(resets) + 1 && state == PauseData && prevState == Some(Cmd)
                    && transaction == old(transaction)
                else resets == old(resets) && transaction == null
    {
      hide SumOf, Total;
      var ok := Respond(writable);
      if ok {
        ResetOrEnd(disconnects, Nothing);
      }
    }

    method ResetOrEnd(disconnects: bool, andThen: Then)
      requires Valid() && state == Cmd && !andThen.Starts()
      requires andThen.ResumeSession? && !overlapped ==> transaction != null
      modifies this`state, this`prevState, this`resets, this`transaction, this`past, (Open())`resetting
      ensures SameOrNew() && Valid()
      ensures disconnects ==> state == Gone
      ensures !disconnects ==>
                if old(WillPause()) then resets == old(resets) + 1 && state == PauseData && prevState == Some(Cmd)
                    && transaction == old(transaction)
                else resets == old(resets) && transaction == null
    {
      hide SumOf, Total;
      if disconnects {
        Disconnect();
      } else {
        ResetTransaction(andThen);
      }
    }

    method RsetRespond(writable: bool)
      requires Valid() && hook == RsetHook
      modifies this`state, this`prevState, this`hook, this`resets, this`transaction, this`past, (Open())`resetting
      ensures SameOrNew() && Valid()
      ensures writable && old(WillPause()) ==> resets == old(resets) + 1 && state == PauseData
    {
      hook := Idle;
      ReplyAndReset(false, writable);
    }

    /** mail_respond; one that finds no transaction does nothing. */
    method MailRespond(ret: Ret, writable: bool)
      requires Valid() && hook == MailHook
      modifies this`state, this`prevState, this`hook, this`resets, this`transaction, this`past, (Open())`resetting
      ensures SameOrNew() && Valid() && hook == Idle
      ensures old(transaction) == null ==> state == old(state) && transaction == null
      ensures old(transaction) != null && writable && Denied(ret).None? ==>
              state == Cmd && transaction == old(transaction) && resets == old(resets)
      ensures old(WillPause()) && writable && Denied(ret).Some? && !Denied(ret).value.disconnects ==>
                resets == old(resets) + 1 && state == PauseData && prevState == Some(Cmd)
                    && transaction == old(transaction)
      ensures old(transaction) != null && (!writable || (Denied(ret).Some? && Denied(ret).value.disconnects)) ==>
              state == Gone
    {
      hide SumOf, Total;
      hook := Idle;
      if transaction == null { return; }
      if Denied(ret).Some? {
        ReplyAndReset(Denied(ret).value.disconnects, writable);
      } else {
        Reply(writable);
      }
    }

    /** cmd_rcpt; `good` when the line is accepted. */
    method CmdRcpt(rcpt: Address, good: bool, writable: bool)
      requires Valid() && state == Cmd
      modifies this`state, this`hook, this`transaction, this`past, (Open())`rcptTo
      ensures SameOrNew() && Valid()
      ensures good && old(transaction) != null ==>
                hook == RcptHook && transaction == old(transaction)
                    && transaction.rcptTo == old(transaction.rcptTo) + [rcpt]
      ensures !(good && old(transaction) != null) && writable ==> state == Cmd && transaction == old(transaction)
    {
      hide SumOf, Total;
      Command();
      if transaction == null || !good {
        Reply(writable);
        return;
      }
      transaction.rcptTo := transaction.rcptTo + [rcpt];
      hook := RcptHook;
    }

    // ----- recipients -----

    method RcptIncr(action: Action)
      requires transaction != null && Accounts()
      modifies this`rcptCount, transaction`rcptCount
      ensures Accounts()
      ensures rcptCount == old(rcptCount).Bump(action)
      ensures transaction.rcptCount == old(transaction.rcptCount).Bump(action)
    {
      transaction.rcptCount := transaction.rcptCount.Bump(action);
      rcptCount := rcptCount.Bump(action);
    }

    /** What a reply to a recipient leaves: one counter moves, in the session and in the transaction, and the
        recipient stays exactly when accepted. */
    twostate predicate Told(t: Transaction, answer: Answer)
      reads this, transaction
    {
      && rcptCount == old(rcptCount).Bump(answer.action)
      && (answer.disconnects ==> state == Gone)
      && (!answer.disconnects ==>
            && state == Cmd && transaction == t
            && transaction.rcptCount == old(t.rcptCount).Bump(answer.action)
            && transaction.rcptTo == if answer.action.Accept? || old(t.rcptTo) == [] then old(t.rcptTo)
                                     else old(t.rcptTo)[..|old(t.rcptTo)| - 1])
    }

    /** The end of rcpt_respond and rcpt_ok_respond: the reply, and the closure that counts it. */
    method RcptDone(answer: Answer, writable: bool)
      requires Valid() && hook.Recipient() && transaction != null
      requires answer.action.Accept? ==> !answer.disconnects
      modifies this`state, this`hook, this`transaction, this`past, this`rcptCount
      modifies transaction`rcptTo, transaction`rcptCount, transaction`accepted
      ensures SameOrNew() && Valid()
      ensures if writable then Told(old(transaction), answer) else state == Gone && rcptCount == old(rcptCount)
    {
      var ok := AnswerRecipient(writable);
      if ok {
        RcptCounted(answer);
      }
    }

    method AnswerRecipient(writable: bool) returns (ok: bool)
      requires Valid() && hook.Recipient() && transaction != null
      modifies this`state, this`hook, this`transaction, this`past
      ensures ok == writable && hook == Idle
      ensures ok ==> state == Cmd && transaction == old(transaction) && AskedAbout()
      ensures !ok ==> Valid() && state == Gone && transaction == null
    {
      hide SumOf, Total;
      hook := Idle;
      ok := Respond(writable);
    }

    /** The reply to the last recipient is out, and it is to be counted. */
    ghost predicate AskedAbout()
      reads this, transaction
    {
      && Accounts() && Messages() && Phase() && Order() && state == Cmd && transaction != null
      && transaction.rcptTo != [] && transaction.rcptTo[..|transaction.rcptTo| - 1] == transaction.accepted
      && |transaction.accepted| == transaction.rcptCount.accept
    }

    method RcptCounted(answer: Answer)
      requires AskedAbout()
      requires answer.action.Accept? ==> !answer.disconnects
      modifies this`state, this`transaction, this`past, this`rcptCount
      modifies transaction`rcptTo, transaction`rcptCount, transaction`accepted
      ensures SameOrNew() && Valid() && Told(old(transaction), answer)
    {
      hide SumOf, Total;
      RcptIncr(answer.action);
      if answer.disconnects {
        Disconnect();
      } else {
        KeepOrPop(answer.action.Accept?);
      }
    }

    /** An accepted recipient stays, a refused one is popped. */
    method KeepOrPop(accept: bool)
      requires transaction != null && hook == Idle
      requires transaction.rcptTo != [] && transaction.rcptTo[..|transaction.rcptTo| - 1] == transaction.accepted
      requires |transaction.accepted| + One(accept) == transaction.rcptCount.accept
      modifies transaction`rcptTo, transaction`accepted
      ensures Recipients()
      ensures transaction.rcptTo == if accept then old(transaction.rcptTo)
                                    else old(transaction.rcptTo)[..|old(transaction.rcptTo)| - 1]
    {
      if accept {
        Bytes.SplitLast(transaction.rcptTo);
        transaction.accepted := transaction.rcptTo;
      } else {
        transaction.rcptTo := transaction.rcptTo[..|transaction.rcptTo| - 1];
      }
    }

    /** rcpt_respond: a recipient no plugin vouches for is refused, unless the client may relay. One that
        finds no transaction does nothing. */
    method RcptRespond(ret: Ret, relaying: bool, writable: bool)
      requires Valid() && hook == RcptHook
      modifies this`state, this`hook, this`transaction, this`past, this`rcptCount
      modifies (Open())`rcptTo, (Open())`rcptCount, (Open())`accepted
      ensures SameOrNew() && Valid()
      ensures old(transaction) == null ==> hook == Idle && state == old(state) && rcptCount == old(rcptCount)
      ensures old(transaction) != null && (ret == Ok || (ret == Cont && relaying)) ==>
                hook == RcptOkHook && rcptCount == old(rcptCount)
                    && transaction == old(transaction) && transaction.rcptTo == old(transaction.rcptTo)
      ensures old(transaction) != null && writable && !(ret == Ok || (ret == Cont && relaying)) ==>
                Told(old(transaction), if Denied(ret).Some? then Denied(ret).value else Answer(Reject, false))
    {
      if transaction == null {
        hook := Idle;
      } else if ret == Ok || (ret == Cont && relaying) {
        hook := RcptOkHook;
      } else {
        RcptDone(if Denied(ret).Some? then Denied(ret).value else Answer(Reject, false), writable);
      }
    }

    method RcptOkRespond(ret: Ret, writable: bool)
      requires Valid() && hook == RcptOkHook
      modifies this`state, this`hook, this`transaction, this`past, this`rcptCount
      modifies (Open())`rcptTo, (Open())`rcptCount, (Open())`accepted
      ensures SameOrNew() && Valid()
      ensures old(transaction) == null ==> hook == Idle && state == old(state) && rcptCount == old(rcptCount)
      ensures old(transaction) != null && writable ==>
                Told(old(transaction), if Denied(ret).Some? then Denied(ret).value else Answer(Accept, false))
    {
      if transaction == null {
        hook := Idle;
      } else {
        RcptDone(if Denied(ret).Some? then Denied(ret).value else Answer(Accept, false), writable);
      }
    }

    // ----- DATA -----

    /** cmd_data; `good` when it has no argument. It notes how many recipients are accepted. */
    method CmdData(good: bool, writable: bool)
      requires Valid() && state == Cmd
      modifies this`state, this`hook, this`transaction, this`past, this`vouched
      ensures SameOrNew() && Valid()
      ensures if good && old(transaction) != null && old(transaction.rcptTo) != [] then
                hook == DataHook && vouched == old(transaction.rcptCount.accept) && transaction == old(transaction)
              else if writable then state == Cmd && transaction == old(transaction)
              else state == Gone
    {
      hide SumOf, Total;
      Command();
      if !good || transaction == null || transaction.rcptTo == [] {
        Reply(writable);
        return;
      }
      TakeData();
    }

    method TakeData()
      requires Valid() && state == PauseSmtp && hook == Idle && starting.None? && prevState != Some(Cmd)
      requires transaction != null && transaction.rcptTo != []
      modifies this`hook, this`vouched
      ensures Valid() && hook == DataHook && vouched == transaction.rcptCount.accept
    {
      hide SumOf, Total;
      vouched := transaction.rcptCount.accept;
      hook := DataHook;
    }

    /** data_respond. Without a transaction the reply is sent, and its closure throws: lines that follow end
        the session. */
    method DataRespond(ret: Ret, writable: bool)
      requires Valid() && hook == DataHook
      modifies this`state, this`prevState, this`hook, this`resets, this`transaction, this`past, this`goAheads
      modifies (Open())`resetting
      ensures SameOrNew() && Valid()
      ensures if writable && Denied(ret).None? then
                state == Data && transaction == old(transaction) && goAheads == old(goAheads) + [vouched]
                    && resets == old(resets)
              else goAheads == old(goAheads)
    {
      hide SumOf, Total;
      hook := Idle;
      if Denied(ret).Some? {
        ReplyAndReset(Denied(ret).value.disconnects, writable);
        return;
      }
      GoAhead(writable);
    }

    method GoAhead(writable: bool)
      requires Valid() && Answering() && vouched > 0
      requires transaction != null ==> transaction.rcptTo != []
      requires !overlapped ==> transaction != null
      modifies this`state, this`transaction, this`past, this`goAheads
      ensures SameOrNew() && Valid()
      ensures if writable then
                state == Data && transaction == old(transaction) && goAheads == old(goAheads) + [vouched]
              else goAheads == old(goAheads)
    {
      hide SumOf, Total;
      var ok := Respond(writable);
      if ok {
        goAheads := goAheads + [vouched];
        state := Data;
      }
    }

    /** A line of data without a transaction: the process throws. */
    method Crash()
      requires Valid() && state == Data && transaction == null
      modifies this`state, this`hook
      ensures Valid() && state == Gone
    {
      hook := Idle;
      state := Gone;
    }

    /** `.` LF, or too many MIME parts. */
    method RefuseData(disconnects: bool, writable: bool)
      requires Valid() && state == Data && transaction != null
      modifies this`state, this`prevState, this`resets, this`transaction, this`past, (Open())`resetting
      ensures SameOrNew() && Valid()
      ensures !writable || disconnects ==> state == Gone
      ensures writable && !disconnects && old(WillPause()) ==> resets == old(resets) + 1 && state == PauseData
    {
      ReplyAndReset(disconnects, writable);
    }

    /** data_done. */
    method DataDone(tooBig: bool, tooManyReceived: bool, writable: bool)
      requires Valid() && state == Data && transaction != null
      modifies this`state, this`prevState, this`hook, this`resets, this`transaction, this`past, this`posted
      modifies (Open())`resetting
      ensures SameOrNew() && Valid()
      ensures tooBig ==> hook == MaxDataHook && posted == old(posted)
      ensures !tooBig && tooManyReceived ==> hook == Idle && posted == old(posted)
      ensures !tooBig && !tooManyReceived ==>
                hook == DataPostHook && posted == old(posted) + 1 && resets == old(resets)
      ensures tooBig || !tooManyReceived ==>
                state == PauseData && prevState == Some(Data) && transaction == old(transaction)
    {
      hide SumOf, Total;
      Pause();
      if tooBig {
        hook := MaxDataHook;
      } else if tooManyReceived {
        ReplyAndReset(false, writable);
      } else {
        PostMessage();
      }
    }

    method PostMessage()
      requires Valid() && CanStart() && state == PauseData && transaction != null
      modifies this`hook, this`posted
      ensures Valid() && hook == DataPostHook && posted == old(posted) + 1
    {
      hide SumOf, Total;
      hook, posted := DataPostHook, posted + 1;
    }

    method MaxDataRespond(writable: bool)
      requires Valid() && hook == MaxDataHook
      modifies this`state, this`prevState, this`hook, this`resets, this`transaction, this`past, (Open())`resetting
      ensures SameOrNew() && Valid()
      ensures !writable ==> state == Gone
      ensures writable && old(WillPause()) ==> resets == old(resets) + 1 && state == PauseData
    {
      hook := Idle;
      ReplyAndReset(false, writable);
    }

    // ----- the verdict on a message -----

    /** One message answered is one message counted. */
    twostate predicate CountedAs(action: Action)
      reads this`msgCount, this`hook, this`posted
    {
      msgCount == old(msgCount).Bump(action) && hook == Idle
    }

    /** The reply, and the closure that counts it. */
    method MessageDone(answer: Answer, writable: bool)
      requires Valid() && hook.Message()
      modifies this`state, this`prevState, this`hook, this`resets, this`transaction, this`past, this`msgCount
      modifies (Open())`resetting
      ensures SameOrNew() && Valid()
      ensures if writable then CountedAs(answer.action) else msgCount == old(msgCount)
      ensures !writable || answer.disconnects ==> state == Gone
      ensures writable && !answer.disconnects && old(WillPause()) ==> resets == old(resets) + 1 && state == PauseData
    {
      hide SumOf, Total;
      var ok := AnswerMessage(writable);
      if ok {
        CountMessage(answer.action);
        ResetOrEnd(answer.disconnects, ResumeSession);
      }
    }

    method CountMessage(action: Action)
      requires Owed(1) && hook == Idle
      modifies this`msgCount
      ensures Messages() && msgCount == old(msgCount).Bump(action)
    {
      msgCount := msgCount.Bump(action);
    }

    method AnswerMessage(writable: bool) returns (ok: bool)
      requires Valid() && hook.Message()
      modifies this`state, this`hook, this`transaction, this`past
      ensures ok == writable && hook == Idle
      ensures Accounts() && Recipients() && Phase() && Order()
      ensures ok ==> state == Cmd && transaction == old(transaction) && (!overlapped ==> transaction != null)
      ensures ok ==> Owed(1)
      ensures !ok ==> Valid() && state == Gone
    {
      hide SumOf, Total;
      hook := Idle;
      ok := Respond(writable);
    }

    /** The responder finds no transaction: it does nothing, or throws. */
    method Lose()
      requires Valid() && hook.Message() && transaction == null
      modifies this`hook, this`lost
      ensures Valid() && hook == Idle && lost == old(lost) + 1
    {
      hide SumOf, Total;
      hook, lost := Idle, lost + 1;
    }

    method DataPostRespond(ret: Ret, relaying: bool, writable: bool)
      requires Valid() && hook == DataPostHook
      modifies this`state, this`prevState, this`hook, this`resets, this`transaction, this`past, this`msgCount, this`lost
      modifies (Open())`resetting
      ensures SameOrNew() && Valid()
      ensures old(transaction) == null ==>
                lost == old(lost) + 1 && msgCount == old(msgCount) && hook == Idle && state == old(state)
      ensures old(transaction) != null && Denied(ret).Some? && writable ==> CountedAs(Denied(ret).value.action)
      ensures old(transaction) != null && Denied(ret).None? ==>
                msgCount == old(msgCount) && hook == if relaying then QueueOutboundHook else QueueHook
    {
      if transaction == null {
        Lose();
      } else if Denied(ret).Some? {
        MessageDone(Denied(ret).value, writable);
      } else {
        hook := if relaying then QueueOutboundHook else QueueHook;
      }
    }

    /** queue_respond: unless a plugin queues the message, it is deferred. */
    method QueueRespond(ret: Ret, writable: bool)
      requires Valid() && hook == QueueHook
      modifies this`state, this`prevState, this`hook, this`resets, this`transaction, this`past, this`msgCount, this`lost
      modifies (Open())`resetting
      ensures SameOrNew() && Valid()
      ensures old(transaction) == null ==> lost == old(lost) + 1 && msgCount == old(msgCount)
      ensures old(transaction) != null && ret == Ok ==> hook == QueueOkHook && msgCount == old(msgCount)
      ensures old(transaction) != null && ret != Ok && writable ==>
                CountedAs(if Denied(ret).Some? then Denied(ret).value.action else TempFail)
    {
      if transaction == null {
        Lose();
      } else if ret == Ok {
        hook := QueueOkHook;
      } else {
        MessageDone(if Denied(ret).Some? then Denied(ret).value else Answer(TempFail, false), writable);
      }
    }

    /** queue_outbound_respond: unless a plugin decides, the outbound queue does. */
    method QueueOutboundRespond(ret: Ret, writable: bool)
      requires Valid() && hook == QueueOutboundHook
      modifies this`state, this`prevState, this`hook, this`resets, this`transaction, this`past, this`msgCount, this`lost
      modifies (Open())`resetting
      ensures SameOrNew() && Valid()
      ensures old(transaction) == null ==> lost == old(lost) + 1 && msgCount == old(msgCount)
      ensures old(transaction) != null && ret == Ok ==> hook == QueueOkHook && msgCount == old(msgCount)
      ensures old(transaction) != null && ret != Ok && Denied(ret).None? ==>
              hook == Outbound && msgCount == old(msgCount)
      ensures old(transaction) != null && Denied(ret).Some? && writable ==> CountedAs(Denied(ret).value.action)
    {
      if transaction == null {
        Lose();
      } else if ret == Ok {
        hook := QueueOkHook;
      } else if Denied(ret).Some? {
        MessageDone(Denied(ret).value, writable);
      } else {
        hook := Outbound;
      }
    }

    /** The callback of send_email. Without a transaction a refusal is counted, and then it throws. */
    method SendEmailDone(queued: bool, writable: bool)
      requires Valid() && hook == Outbound
      modifies this`state, this`prevState, this`hook, this`resets, this`transaction, this`past, this`msgCount
      modifies (Open())`resetting
      ensures SameOrNew() && Valid()
      ensures queued ==> hook == QueueOkHook && msgCount == old(msgCount)
      ensures !queued && writable ==> CountedAs(Reject)
    {
      if queued {
        hook := QueueOkHook;
      } else {
        MessageDone(Answer(Reject, transaction == null), writable);
      }
    }

    method QueueOkRespond(writable: bool)
      requires Valid() && hook == QueueOkHook
      modifies this`state, this`prevState, this`hook, this`resets, this`transaction, this`past, this`msgCount
      modifies (Open())`resetting
      ensures SameOrNew() && Valid()
      ensures writable ==> CountedAs(Accept)
    {
      MessageDone(Answer(Accept, false), writable);
    }

    /** The client goes, or the process throws: hooks are cancelled. */
    method Drop()
      requires Valid() && state != Gone
      modifies this`state, this`hook, this`starting, this`transaction, this`past
      ensures Valid() && state == Gone
    {
      hide SumOf, Total;
      hook, starting := Idle, None;
      state := Gone;
      DropTransaction();
    }
  }

  // ----- whole sessions -----

  /** What may happen next. `Answered` is the answer of the hook under way; the answers of resets, and the
      resumes that are due, come when they come. */
  datatype Event =
    | GotMail(good: bool) | GotRcpt(rcpt: Address, good: bool) | GotData(good: bool) | GotEhlo | GotOther(resets: bool)
    | GotEnd(tooBig: bool, tooManyReceived: bool) | GotRefused(disconnects: bool)
    | Answered(ret: Ret, relaying: bool)
    | ResetAnswered | StartAnswered | Resumed | Cancelled
    | Dropped

  /** A session, whatever the client sends and the plugins answer, in any order: between recipients the
      recipients of the transaction are those accepted; the totals are the sums over all transactions; every
      354 reply had an accepted recipient; and every message given to the data_post hook is counted once as
      soon as it is answered, unless the session has been resumed with a reset under way, which may have
      dropped the transaction of a message. The session is followed to the end of the events, or until a due
      resume has reopened DATA: see DueResume for when that is. */
  method Run(events: seq<(Event, bool)>) returns (c: Connection, followed: nat)
    ensures fresh(c) && c.Books() && followed <= |events|
    ensures if c.reopened then followed > 0 && events[followed - 1].0.Resumed? else followed == |events| && c.Valid()
    ensures c.transaction != null && !c.hook.Recipient() ==> |c.transaction.rcptTo| == c.transaction.rcptCount.accept
    ensures forall a :: c.rcptCount.Get(a) == SumOf(c.past, a) + c.Current(a)
    ensures forall i :: 0 <= i < |c.goAheads| ==> c.goAheads[i] > 0
    ensures c.state != Gone && !c.hook.Message() ==> Total(c.msgCount) + c.lost == c.posted
    ensures !c.overlapped ==> c.lost == 0
  {
    c := new Connection();
    followed := 0;
    while followed < |events| && !c.reopened
      invariant followed <= |events| && c.Books() && (!c.reopened ==> c.Valid())
      invariant c.reopened ==> followed > 0 && events[followed - 1].0.Resumed?
      invariant fresh(c) && (c.transaction != null ==> fresh(c.transaction))
    {
      Handle(c, events[followed].0, events[followed].1);
      followed := followed + 1;
    }
  }

  // ----- two sessions that go wrong -----

  /** A session with an open transaction. */
  method OpensTransaction() returns (c: Connection)
    ensures fresh(c) && c.Valid() && c.NothingSent() && fresh(c.transaction) && c.WillPause()
    ensures c.state == Cmd && c.hook == Idle && c.resets == c.dues == 0
  {
    hide SumOf, Total;
    c := new Connection();
    c.CmdMail(true, true);
    c.MailRespond(Cont, true);
  }

  /** Another MAIL: the transaction is reset, the next one begins, and the resume of that reset is due. */
  method SecondMail() returns (c: Connection)
    ensures fresh(c) && c.Valid() && c.NothingSent() && fresh(c.transaction)
    ensures c.hook == MailHook && c.resets == 0 && c.dues == 1
  {
    hide SumOf, Total;
    c := OpensTransaction();
    c.CmdMail(true, true);
    c.StartRespond();
  }

  method AcceptsRecipient(c: Connection)
    requires c.Valid() && c.state == Cmd && c.transaction != null && c.transaction.rcptTo == []
    modifies c`state, c`hook, c`transaction, c`past, c`rcptCount
    modifies c.transaction`rcptTo, c.transaction`rcptCount, c.transaction`accepted
    ensures c.Valid() && c.state == Cmd && c.transaction == old(c.transaction) && |c.transaction.rcptTo| == 1
  {
    hide SumOf, Total;
    c.CmdRcpt("", true, true);
    c.RcptRespond(Ok, false, true);
    c.RcptOkRespond(Cont, true);
  }

  method SendsMessage(c: Connection)
    requires c.Valid() && c.state == Cmd && c.transaction != null && |c.transaction.rcptTo| == 1
    modifies c`state, c`prevState, c`hook, c`resets, c`transaction, c`past, c`posted, c`vouched, c`goAheads
    modifies c.transaction`resetting
    ensures c.Valid() && c.transaction == old(c.transaction) && c.hook == DataPostHook
    ensures c.state == PauseData && c.prevState == Some(Data) && c.posted == old(c.posted) + 1
    ensures c.resets == old(c.resets)
  {
    hide SumOf, Total;
    c.CmdData(true, true);
    c.DataRespond(Cont, true);
    c.DataDone(false, false, true);
  }

  /** From MAIL on: a recipient, and a message. */
  method SendsMail(c: Connection)
    requires c.Valid() && c.state == Cmd && c.transaction != null && c.transaction.rcptTo == []
    modifies c`state, c`prevState, c`hook, c`resets, c`transaction, c`past, c`rcptCount, c`posted, c`vouched, c`goAheads
    modifies c.transaction
    ensures c.Valid() && c.transaction == old(c.transaction) && c.hook == DataPostHook
    ensures c.state == PauseData && c.prevState == Some(Data) && c.posted == old(c.posted) + 1
    ensures c.resets == old(c.resets)
  {
    hide SumOf, Total;
    AcceptsRecipient(c);
    SendsMessage(c);
  }

  /** The sender of the second transaction is refused, and the due resume lets the client go on while that
      transaction is being reset. */
  method GoesOnDuringReset() returns (c: Connection)
    ensures fresh(c) && c.Valid() && c.state == Cmd && c.resets == 1 && c.overlapped
    ensures c.transaction != null && fresh(c.transaction) && c.transaction.rcptTo == []
    ensures c.posted == c.lost == 0 && c.msgCount == ZERO
  {
    hide SumOf, Total;
    c := SecondMail();
    c.MailRespond(Deny, true);
    c.DueResume();
  }

  /** A message is lost: the reset ends while its data_post hook runs. */
  method LosesAMessage() returns (c: Connection)
    ensures fresh(c) && c.Valid() && c.state != Gone && c.overlapped
    ensures c.posted == 1 && c.lost == 1 && c.hook == Idle && c.msgCount == ZERO
  {
    hide SumOf, Total;
    c := GoesOnDuringReset();
    SendsMail(c);
    c.ResetRespond();
    c.DataPostRespond(Ok, false, true);
  }

  /** The sender of the second transaction is accepted, inside the closure of the reset. */
  method AcceptsSender() returns (c: Connection)
    ensures fresh(c) && c.Valid() && c.NothingSent() && fresh(c.transaction)
    ensures c.state == Cmd && c.resets == 0 && c.dues == 1
  {
    hide SumOf, Total;
    c := SecondMail();
    c.MailRespond(Cont, true);
  }

  /** DATA is reopened: the message has ended when the resume comes. */
  method ReopensData() returns (c: Connection)
    ensures fresh(c) && c.Books() && c.reopened && c.state == Data && c.hook == DataPostHook && !c.overlapped
  {
    hide SumOf, Total;
    c := AcceptsSender();
    SendsMail(c);
    c.DueResume();
  }

  method Handle(c: Connection, e: Event, writable: bool)
    requires c.Valid()
    modifies c, c.Open()
    ensures c.Books() && (!c.reopened ==> c.Valid()) && c.SameOrNew()
    ensures c.reopened ==> e.Resumed?
  {
    if e.Answered? {
      HandleAnswer(c, e.ret, e.relaying, writable);
    } else if e.ResetAnswered? || e.StartAnswered? || e.Resumed? || e.Cancelled? {
      HandleReset(c, e);
    } else if e.Dropped? {
      if c.state != Gone { c.Drop(); }
    } else if c.state == Data {
      HandleData(c, e, writable);
    } else if c.state == Cmd {
      HandleCommand(c, e, writable);
    }
  }

  method HandleReset(c: Connection, e: Event)
    requires c.Valid()
    modifies c
    ensures c.Books() && (!c.reopened ==> c.Valid()) && c.SameOrNew()
    ensures c.reopened ==> e.Resumed?
  {
    if e.ResetAnswered? {
      if c.resets > 0 && c.state != Gone { c.ResetRespond(); }
    } else if e.StartAnswered? {
      if c.starting.Some? { c.StartRespond(); }
    } else if e.Resumed? {
      if c.dues > 0 { c.DueResume(); }
    } else if c.resets > 1 {
      c.ResetCancelled();
    }
  }

  method HandleData(c: Connection, e: Event, writable: bool)
    requires c.Valid() && c.state == Data
    modifies c, c.Open()
    ensures c.Valid() && c.SameOrNew()
  {
    if c.transaction == null {
      c.Crash();
    } else if e.GotRefused? {
      c.RefuseData(e.disconnects, writable);
    } else if e.GotEnd? {
      c.DataDone(e.tooBig, e.tooManyReceived, writable);
    }
  }

  method HandleCommand(c: Connection, e: Event, writable: bool)
    requires c.Valid() && c.state == Cmd
    modifies c, c.Open()
    ensures c.Valid() && c.SameOrNew()
  {
    match e {
      case GotMail(good) => c.CmdMail(good, writable);
      case GotRcpt(rcpt, good) => c.CmdRcpt(rcpt, good, writable);
      case GotData(good) => c.CmdData(good, writable);
      case GotEhlo => c.CmdEhlo();
      case GotOther(resets) => c.CmdHook(resets);
      case _ =>
    }
  }

  method HandleAnswer(c: Connection, ret: Ret, relaying: bool, writable: bool)
    requires c.Valid()
    modifies c, c.Open()
    ensures c.Valid() && c.SameOrNew()
  {
    match c.hook {
      case Idle =>
      case MailHook => c.MailRespond(ret, writable);
      case RcptHook => c.RcptRespond(ret, relaying, writable);
      case RcptOkHook => c.RcptOkRespond(ret, writable);
      case DataHook => c.DataRespond(ret, writable);
      case MaxDataHook => c.MaxDataRespond(writable);
      case DataPostHook => c.DataPostRespond(ret, relaying, writable);
      case QueueHook => c.QueueRespond(ret, writable);
      case QueueOutboundHook => c.QueueOutboundRespond(ret, writable);
      case Outbound => c.SendEmailDone(ret == Ok, writable);
      case QueueOkHook => c.QueueOkRespond(writable);
      case RsetHook => c.RsetRespond(writable);
      case CommandHook => c.CommandRespond(writable);
    }
  }
}
