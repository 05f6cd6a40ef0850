/**
 The SMTP and LMTP client of outbound delivery (try_deliver_host_on_socket in
 email/outbound/hmail.js): one socket, driven line by line by a remote end that may answer anything.
 Recipients are sorted into three lists as their replies come in, and the session ends in a verdict.
 */
module Dialogue {

  import opened Numbers
  import opened Options

  datatype Rcpt = Rcpt(address: string)

  datatype Code = C250 | C2xx | C3xx | C4xx | C5xx

  /** A line as smtp_regexp sees it: no match, a line to be continued, or the last line of a reply. */
  datatype Reply = Garbage | Continued | Final(code: Code)

  datatype Command =
    | Connect | ConnectLmtp | Ehlo | Lhlo | Helo | StartTls | Auth | MailFrom | RcptTo
    | Data | Dot | DotLmtp | Rset | Quit
  {
    /** Up to MAIL. */
    predicate Early() {
      Connect? || ConnectLmtp? || Ehlo? || Lhlo? || Helo? || StartTls? || Auth? || MailFrom?
    }

    /** Behind the recipients. */
    predicate Late() { Data? || Dot? || DotLmtp? }

    predicate Lmtp() { ConnectLmtp? || Lhlo? || DotLmtp? }
  }

  /** What process_ehlo_data decides, from configuration and the offered extensions. */
  datatype EhloChoice = GoMail | GoAuthPlain | GoAuthDialogue | GoStartTls | NoTls

  /** What the session hands back to the message: see HMailItem for what becomes of it. */
  datatype Verdict = Finish(success: bool) | TempFailAll | BounceAll | NextHost

  /** A reply to RCPT, or to an LMTP message, that concerns one recipient. */
  type RcptCode = c: Code | c != C3xx witness C250

  /** ok_recips, fail_recips and bounce_recips. */
  datatype Lists = Lists(ok: seq<Rcpt>, fail: seq<Rcpt>, bounce: seq<Rcpt>) {
    function All(): multiset<Rcpt> {
      multiset(ok) + multiset(fail) + multiset(bounce)
    }

    function Add(r: Rcpt, code: RcptCode): Lists {
      match code
      case C250 => Lists(ok + [r], fail, bounce)
      case C4xx => Lists(ok, fail + [r], bounce)
      case C5xx => Lists(ok, fail, bounce + [r])
      case _ => this
    }

    /** A refusal after an LMTP message is charged to the head of the accepted recipients. */
    function Move(code: RcptCode): Lists {
      if ok == [] then this
      else match code
        case C4xx => Lists(ok[1..], fail + [ok[0]], bounce)
        case C5xx => Lists(ok[1..], fail, bounce + [ok[0]])
        case _ => this
    }
  }

  /** The lists once the first |codes| recipients have been answered. */
  function Sorted(recipients: seq<Rcpt>, codes: seq<RcptCode>): Lists
    requires |codes| <= |recipients|
  {
    if codes == [] then Lists([], [], [])
    else
      var n := |codes| - 1;
      Sorted(recipients, codes[..n]).Add(recipients[n], codes[n])
  }

  /** The lists after the replies `dots` to an LMTP message. */
  function Moved(l: Lists, dots: seq<RcptCode>): Lists {
    if dots == [] then l else Moved(l, dots[..|dots| - 1]).Move(dots[|dots| - 1])
  }

  lemma MovedSnoc(l: Lists, dots: seq<RcptCode>, code: RcptCode)
    ensures Moved(l, dots + [code]) == Moved(l, dots).Move(code)
  {
    assert (dots + [code])[..|dots|] == dots;
  }

  lemma SortedSnoc(recipients: seq<Rcpt>, codes: seq<RcptCode>, code: RcptCode)
    requires |codes| < |recipients|
    ensures Sorted(recipients, codes + [code]) == Sorted(recipients, codes).Add(recipients[|codes|], code)
  {
    assert (codes + [code])[..|codes|] == codes;
  }

  /** The recipients whose RCPT was answered by a success code other than 250. */
  function Missed(recipients: seq<Rcpt>, codes: seq<RcptCode>): multiset<Rcpt>
    requires |codes| <= |recipients|
  {
    if codes == [] then multiset{}
    else
      var n := |codes| - 1;
      Missed(recipients, codes[..n]) + if codes[n] == C2xx then multiset{recipients[n]} else multiset{}
  }

  lemma AddAll(l: Lists, r: Rcpt, code: RcptCode)
    ensures l.Add(r, code).All() == l.All() + if code == C2xx then multiset{} else multiset{r}
  {
  }

  lemma MoveAll(l: Lists, code: RcptCode)
    ensures l.Move(code).All() == l.All()
  {
    if l.ok != [] {
      assert l.ok == [l.ok[0]] + l.ok[1..];
      assert multiset(l.ok) == multiset{l.ok[0]} + multiset(l.ok[1..]);
    }
  }

  /** An LMTP end only moves recipients from list to list. */
  lemma {:induction false} MovedAll(l: Lists, dots: seq<RcptCode>)
    ensures Moved(l, dots).All() == l.All()
  {
    if dots != [] {
      MovedAll(l, dots[..|dots| - 1]);
      MoveAll(Moved(l, dots[..|dots| - 1]), dots[|dots| - 1]);
    }
  }

  lemma Regroup(a: multiset<Rcpt>, b: multiset<Rcpt>, x: multiset<Rcpt>)
    ensures (a + x) + b == (a + b) + x && a + (b + x) == (a + b) + x
  {
  }

  lemma TakeOneMore(recipients: seq<Rcpt>, n: nat)
    requires n < |recipients|
    ensures multiset(recipients[..n + 1]) == multiset(recipients[..n]) + multiset{recipients[n]}
  {
    assert recipients[..n + 1] == recipients[..n] + [recipients[n]];
  }

  lemma {:induction false} SortedAndMissed(recipients: seq<Rcpt>, codes: seq<RcptCode>)
    requires |codes| <= |recipients|
    ensures Sorted(recipients, codes).All() + Missed(recipients, codes) == multiset(recipients[..|codes|])
  {
    if codes != [] {
      var n := |codes| - 1;
      var r, init := recipients[n], codes[..n];
      SortedAndMissed(recipients, init);
      TakeOneMore(recipients, n);
      OneMore(Sorted(recipients, init), Missed(recipients, init), r, codes[n]);
    }
  }

  lemma OneMore(l: Lists, missed: multiset<Rcpt>, r: Rcpt, code: RcptCode)
    ensures l.Add(r, code).All() + (missed + if code == C2xx then multiset{r} else multiset{}) ==
            (l.All() + missed) + multiset{r}
  {
    AddAll(l, r, code);
    Regroup(l.All(), missed, multiset{r});
  }

  lemma {:induction false} MissedNone(recipients: seq<Rcpt>, codes: seq<RcptCode>)
    requires |codes| <= |recipients|
    ensures Missed(recipients, codes) == multiset{} <==> C2xx !in codes
  {
    if codes != [] {
      var n := |codes| - 1;
      MissedNone(recipients, codes[..n]);
      assert codes == codes[..n] + [codes[n]];
      if codes[n] == C2xx {
        assert recipients[n] in Missed(recipients, codes);
      }
    }
  }

  /** Main result on the lists: after any replies they partition the recipients answered so far,
      exactly when no RCPT was answered by a success code other than 250. */
  lemma PartitionIff(recipients: seq<Rcpt>, codes: seq<RcptCode>, dots: seq<RcptCode>)
    requires |codes| <= |recipients|
    ensures Moved(Sorted(recipients, codes), dots).All() == multiset(recipients[..|codes|]) <==> C2xx !in codes
  {
    var s, m := Sorted(recipients, codes).All(), Missed(recipients, codes);
    MovedAll(Sorted(recipients, codes), dots);
    SortedAndMissed(recipients, codes);
    MissedNone(recipients, codes);
    assert |s + m| == |s| + |m|;
  }

  /** The command that follows a success reply, while there is nothing to refuse. */
  function Following(c: Command, choice: EhloChoice): Command {
    match c
    case Connect => Ehlo
    case ConnectLmtp => Lhlo
    case Ehlo | Lhlo =>
      (match choice
       case GoMail => MailFrom
       case GoAuthPlain | GoAuthDialogue => Auth
       case GoStartTls | NoTls => StartTls)
    case Helo | Auth => MailFrom
    case MailFrom => RcptTo
    case _ => c
  }

  class Session {
    const recipients: seq<Rcpt>
    const usingLmtp: bool
    const pooling: bool        // pool_concurrency_max is not zero
    const forceTls: bool
    var command: Command
    var processing: bool       // processing_mail
    var writable: bool
    var secure: bool           // socket.isSecure()
    var authenticating: bool
    var fpCalled: bool         // finish_processing_mail has run
    var recipIndex: nat
    var lastRecip: Option<Rcpt>
    var okRecips: seq<Rcpt>
    var failRecips: seq<Rcpt>
    var bounceRecips: seq<Rcpt>
    var lmtpRcptIdx: nat
    var verdicts: seq<Verdict>
    var streams: nat           // copies of the message still being written to the socket
    ghost var codes: seq<RcptCode>   // the replies to RCPT, in order
    ghost var dots: seq<RcptCode>    // the replies after an LMTP message
    ghost var accepted: nat          // recipients accepted before DATA
    ghost var clean: bool            // no reply so far was one that makes a second verdict
    ghost var blocked: bool          // a command that was to carry the dialogue on was held back

    function Current(): Lists
      reads this`okRecips, this`failRecips, this`bounceRecips
    {
      Lists(okRecips, failRecips, bounceRecips)
    }

    /** Where the dialogue stands while the message is being processed. */
    ghost predicate Progress()
      reads this
    {
      && (authenticating ==> command == Auth)
      && (streams > 0 ==> command.Late())
      && (command == Dot ==> !usingLmtp) && (command.Lmtp() ==> usingLmtp)
      && if command.Early() then
        recipIndex == 0 && codes == [] && dots == [] && lmtpRcptIdx == 0
      else if command == RcptTo then
        && 1 <= recipIndex <= |recipients| && |codes| == recipIndex - 1
        && lastRecip == Some(recipients[recipIndex - 1]) && dots == [] && lmtpRcptIdx == 0
      else
        && command.Late() && recipIndex == |recipients| == |codes|
        && okRecips != []
        && (command != DotLmtp ==> dots == [] && lmtpRcptIdx == 0 && accepted == |okRecips|)
        && lmtpRcptIdx <= |dots| < accepted && |okRecips| == accepted - (|dots| - lmtpRcptIdx)
    }

    /** The lists are those the replies make. */
    ghost predicate Listed()
      reads this`okRecips, this`failRecips, this`bounceRecips, this`codes, this`dots
    {
      |codes| <= |recipients| && Current() == Moved(Sorted(recipients, codes), dots)
    }

    ghost predicate Valid()
      reads this
    {
      && |recipients| > 0 && Listed()
      && (processing ==> Progress() && !fpCalled && verdicts == [])
      && (command == Rset && !processing ==> verdicts != [])
      && (fpCalled ==> |codes| == |recipients|)
      && (clean <==> |verdicts| <= 1)
      && (blocked <==> !processing && verdicts == [])
      && (fpCalled ==> verdicts != [] && verdicts[0] == Finish(okRecips != []))
    }

    /** A reply that makes the code give a second verdict: an error reply to a command that concerns the
        whole message, when the socket is no longer writable; or, after the verdict, an answer to RSET
        that is of class 3 or is no SMTP reply at all. */
    predicate Doubles(reply: Reply, authContinues: bool)
      reads this
    {
      if processing then
        && !writable && reply.Final? && WholeMessageError(reply.code)
        && !(reply.code == C3xx && authenticating && authContinues)
      else
        command == Rset && (reply.Garbage? || reply == Final(C3xx))
    }

    /** A pooled socket, which is secure or is not, goes on with MAIL at once. */
    constructor (recipients: seq<Rcpt>, usingLmtp: bool, pooling: bool, forceTls: bool, fromPool: bool, secure: bool)
      requires |recipients| > 0
      ensures Valid() && verdicts == [] && codes == [] && clean
      ensures blocked <==> fromPool && forceTls && !secure
      ensures this.recipients == recipients && this.usingLmtp == usingLmtp && this.pooling == pooling
    {
      hide WholeMessageError;
      this.recipients, this.usingLmtp, this.pooling, this.forceTls := recipients, usingLmtp, pooling, forceTls;
      command := if usingLmtp then ConnectLmtp else Connect;
      processing, writable, authenticating, fpCalled := true, true, false, false;
      this.secure := fromPool && secure;
      recipIndex, lastRecip, okRecips, failRecips, bounceRecips, lmtpRcptIdx := 0, None, [], [], [], 0;
      streams := 0;
      verdicts, codes, dots, accepted, clean, blocked := [], [], [], 0, true, false;
      new;
      if fromPool {
        SendCommand(MailFrom);
      }
    }

    /** TLS is forced, and the command would go out in the clear. */
    predicate Blocks(cmd: Command)
      reads this`writable, this`secure
    {
      writable && forceTls && cmd != Ehlo && cmd != StartTls && !secure
    }

    /** send_command. A command that cannot be written gives the message to the next host; one that is
        blocked stops the session, and says nothing. */
    method SendCommand(cmd: Command)
      modifies this`command, this`processing, this`verdicts, this`blocked
      ensures !writable ==>
                && command == old(command) && !processing
                && verdicts == old(verdicts) + if old(processing) then [NextHost] else []
      ensures writable ==> verdicts == old(verdicts)
      ensures writable && processing ==> old(processing) && command == if authenticating then Auth else cmd
      ensures writable && !processing ==>
                command == (if authenticating then Auth else cmd) || command == old(command)
      ensures !old(processing) ==> !processing
      ensures old(processing) && !processing ==> command == old(command)
      ensures old(processing) ==> (processing <==> writable && !Blocks(cmd))
      ensures blocked == (old(blocked) || (old(processing) && Blocks(cmd) && cmd != Rset && cmd != Quit))
    {
      if !writable {
        if processing {
          processing := false;
          verdicts := verdicts + [NextHost];
        }
        return;
      }
      if forceTls && cmd != Ehlo && cmd != StartTls && !secure {
        blocked := blocked || (processing && cmd != Rset && cmd != Quit);
        processing := false;
        return;
      }
      command := if authenticating then Auth else cmd;
    }

    /** An error about the whole message: the session is wound up and a verdict is given. */
    method WholeError(verdict: Verdict)
      modifies this`command, this`processing, this`verdicts, this`blocked
      ensures !processing && blocked == old(blocked)
      ensures verdicts == old(verdicts) + (if old(processing) && !writable then [NextHost] else []) + [verdict]
    {
      SendCommand(if pooling && !usingLmtp then Rset else Quit);
      processing := false;
      verdicts := verdicts + [verdict];
    }

    /** finish_processing_mail. */
    method FinishProcessing(success: bool)
      requires processing && !fpCalled
      modifies this`command, this`processing, this`verdicts, this`fpCalled, this`blocked
      ensures fpCalled && !processing && verdicts == old(verdicts) + [Finish(success)] && blocked == old(blocked)
    {
      fpCalled := true;
      processing := false;
      verdicts := verdicts + [Finish(success)];
      if pooling && success {
        // the socket goes back to the pool
      } else if pooling && !usingLmtp {
        SendCommand(Rset);
      } else {
        SendCommand(Quit);
      }
    }

    /** One line from the remote end. */
    method OnLine(reply: Reply, authContinues: bool, choice: EhloChoice)
      requires Valid()
      modifies this
      ensures Valid()
      ensures old(!processing && command != Rset) ==> verdicts == old(verdicts) && !processing
      ensures old(processing || command == Rset) && reply.Garbage? ==>
              !processing && verdicts == old(verdicts) + [BounceAll]
      ensures clean == (old(clean) && !old(Doubles(reply, authContinues)))
      ensures old(processing && command == DotLmtp) && reply.Final? && reply.code != C3xx ==>
                dots == old(dots) + [reply.code] && (fpCalled <==> |dots| == old(accepted))
    {
      hide Sorted, Moved;
      ghost var doubles := Doubles(reply, authContinues);
      if !processing && command != Rset { return; }
      match reply {
        case Garbage =>
          processing := false;
          verdicts := verdicts + [BounceAll];
          clean := clean && !doubles;
        case Continued =>
        case Final(code) =>
          if processing {
            OnReply(code, authContinues, choice);
          } else if code == C3xx {
            WholeError(TempFailAll);
            clean := false;
          }
          // Any other answer to RSET only sends the socket back to the pool.
      }
    }

    /** Is the reply an error that concerns the whole message? */
    predicate WholeMessageError(code: Code)
      reads this`command
    {
      match code
      case C3xx => command != Data
      case C4xx => command != RcptTo && command != DotLmtp
      case C5xx => command != RcptTo && command != DotLmtp && command != Ehlo
      case _ => false
    }

    /** A complete reply while the message is being processed. */
    method OnReply(code: Code, authContinues: bool, choice: EhloChoice)
      requires Valid() && processing
      modifies this
      ensures Valid()
      ensures clean == (old(clean) && !old(Doubles(Final(code), authContinues)))
      ensures old(command) == DotLmtp && code != C3xx ==>
                dots == old(dots) + [code] && (fpCalled <==> |dots| == old(accepted))
      ensures old(WholeMessageError(code) && !(code == C3xx && authenticating && authContinues)) ==>
                !processing
                && verdicts == (if writable then [] else [NextHost]) + [if code == C5xx then BounceAll else TempFailAll]
    {
      hide Sorted, Moved;
      if code == C3xx && authenticating && authContinues && command != Data {
        KeepOn(Auth);
      } else if WholeMessageError(code) {
        RefuseWhole(code);
      } else if code == C5xx && command == Ehlo {
        KeepOn(Helo);  // EHLO was refused: fall back
      } else if command == RcptTo {
        RcptReply(code);
      } else if command == DotLmtp {
        LmtpReply(code);
      } else {
        Advance(choice);
      }
    }

    method RefuseWhole(code: Code)
      requires Valid() && processing && WholeMessageError(code)
      modifies this`command, this`processing, this`verdicts, this`authenticating, this`clean, this`blocked
      ensures Valid() && !processing && clean == (old(clean) && writable)
      ensures verdicts == (if writable then [] else [NextHost]) + [if code == C5xx then BounceAll else TempFailAll]
    {
      hide Sorted, Moved;
      authenticating := authenticating && code == C3xx;
      clean := clean && writable;
      WholeError(if code == C5xx then BounceAll else TempFailAll);
    }

    /** The next of the commands up to MAIL. */
    method KeepOn(cmd: Command)
      requires Valid() && processing && command.Early() && cmd.Early() && (cmd.Lmtp() ==> usingLmtp)
      modifies this`command, this`processing, this`verdicts, this`blocked
      ensures Valid() && clean == old(clean)
      ensures processing ==> command == if authenticating then Auth else cmd
    {
      SendCommand(cmd);
    }

    /** Puts the recipient just answered on its list. */
    method Record(code: RcptCode)
      requires lastRecip.Some? && dots == [] && |codes| < |recipients| && lastRecip.value == recipients[|codes|]
      requires Listed()
      modifies this`okRecips, this`failRecips, this`bounceRecips, this`codes
      ensures codes == old(codes) + [code]
      ensures Listed()
    {
      SortedSnoc(recipients, codes, code);
      match code {
        case C4xx => failRecips := failRecips + [lastRecip.value];
        case C5xx => bounceRecips := bounceRecips + [lastRecip.value];
        case C250 => okRecips := okRecips + [lastRecip.value];
        case _ =>
      }
      codes := codes + [code];
    }

    /** A reply to RCPT that is not of class 3. */
    method RcptReply(code: RcptCode)
      requires Valid() && processing && command == RcptTo && !authenticating
      modifies this
      ensures Valid() && clean == old(clean)
      ensures codes == old(codes) + [code]
    {
      hide Sorted, Moved;
      Record(code);
      AfterRcpt();
    }

    /** The `case 'rcpt'` of the switch: the next recipient, or DATA, or nobody was accepted. */
    method AfterRcpt()
      requires processing && command == RcptTo && !authenticating && streams == 0 && !fpCalled && verdicts == []
               && clean && !blocked
      requires |recipients| > 0 && |codes| == recipIndex <= |recipients| && dots == [] && lmtpRcptIdx == 0 && Listed()
      modifies this`command, this`processing, this`verdicts, this`fpCalled, this`lastRecip, this`recipIndex
      modifies this`accepted, this`blocked
      ensures Valid()
    {
      if recipIndex == |recipients| {
        AllAnswered();
      } else {
        NextRecipient();
      }
    }

    method AllAnswered()
      requires processing && command == RcptTo && !authenticating && streams == 0 && !fpCalled && verdicts == []
               && clean && !blocked
      requires |recipients| > 0 && |codes| == recipIndex == |recipients| && dots == [] && lmtpRcptIdx == 0 && Listed()
      modifies this`command, this`processing, this`verdicts, this`fpCalled, this`accepted, this`blocked
      ensures Valid()
    {
      if |okRecips| > 0 {
        accepted := |okRecips|;
        SendCommand(Data);
      } else {
        FinishProcessing(false);
      }
    }

    method NextRecipient()
      requires processing && recipIndex < |recipients| && !authenticating
      modifies this`lastRecip, this`recipIndex, this`command, this`processing, this`verdicts, this`blocked
      ensures processing <==> writable && !Blocks(RcptTo)
      ensures blocked == (old(blocked) || Blocks(RcptTo))
      ensures recipIndex == old(recipIndex) + 1 && lastRecip == Some(recipients[recipIndex - 1])
      ensures processing ==> command == RcptTo && verdicts == old(verdicts)
      ensures !processing ==> verdicts == old(verdicts) + if writable then [] else [NextHost]
      ensures !processing ==> command == old(command)
    {
      lastRecip := Some(recipients[recipIndex]);
      recipIndex := recipIndex + 1;
      SendCommand(RcptTo);
    }

    /** Notes one reply after an LMTP message; a refusal takes the first accepted recipient off its list. */
    method Charge(code: RcptCode)
      requires okRecips != [] && Listed()
      modifies this`okRecips, this`failRecips, this`bounceRecips, this`lastRecip, this`dots, this`lmtpRcptIdx
      ensures dots == old(dots) + [code]
      ensures Listed()
      ensures lmtpRcptIdx == old(lmtpRcptIdx) + if code in {C250, C2xx} then 1 else 0
      ensures |okRecips| == |old(okRecips)| - if code in {C250, C2xx} then 0 else 1
    {
      MovedSnoc(Sorted(recipients, codes), dots, code);
      dots := dots + [code];
      if code == C4xx || code == C5xx {
        lastRecip := Some(okRecips[0]);
        okRecips := okRecips[1..];
        if code == C4xx {
          failRecips := failRecips + [lastRecip.value];
        } else {
          bounceRecips := bounceRecips + [lastRecip.value];
        }
      } else {
        lmtpRcptIdx := lmtpRcptIdx + 1;
      }
    }

    /** One of the replies that follow an LMTP message, one for each accepted recipient. */
    method LmtpReply(code: RcptCode)
      requires Valid() && processing && command == DotLmtp && !authenticating
      modifies this
      ensures Valid() && clean == old(clean) && codes == old(codes)
      ensures dots == old(dots) + [code] && (fpCalled <==> |dots| == old(accepted))
    {
      hide Sorted, Moved;
      Charge(code);
      AfterCharge();
    }

    /** All recipients of an LMTP message have been answered, or another reply is due. */
    method AfterCharge()
      requires processing && command == DotLmtp && usingLmtp && !authenticating && !fpCalled && verdicts == []
               && clean && !blocked
      requires 0 < |recipients| == recipIndex == |codes| && streams >= 0
      requires Listed()
      requires lmtpRcptIdx <= |dots| <= accepted && |okRecips| == accepted - (|dots| - lmtpRcptIdx)
      modifies this`command, this`processing, this`verdicts, this`fpCalled, this`blocked
      ensures Valid() && (fpCalled <==> |dots| == accepted)
    {
      if |okRecips| == 0 {
        FinishProcessing(false);
      } else if lmtpRcptIdx == |okRecips| {
        FinishProcessing(true);
      }
    }

    /** The switch on the last command, after a success reply (or 3xx to DATA). */
    method Advance(choice: EhloChoice)
      requires Valid() && processing && command != RcptTo && command != DotLmtp
      modifies this`command, this`processing, this`verdicts, this`authenticating, this`lastRecip, this`recipIndex
      modifies this`streams, this`fpCalled, this`blocked
      ensures Valid() && clean == old(clean) && codes == old(codes)
      ensures processing ==> command == Following(old(command), choice)
      ensures streams == old(streams) + One(old(command) == Data)
      ensures old(command) == Dot ==> fpCalled && verdicts == [Finish(true)]
    {
      hide Sorted, Moved;
      if command == MailFrom {
        NextRecipient();
      } else if command == Data {
        streams := streams + 1;
      } else if command == Dot {
        FinishProcessing(true);
      } else {
        Greet(choice);
      }
    }

    /** The commands before MAIL. */
    method Greet(choice: EhloChoice)
      requires Valid() && processing && command.Early() && command != MailFrom
      modifies this`command, this`processing, this`verdicts, this`authenticating, this`blocked
      ensures Valid() && clean == old(clean)
      ensures processing ==> command == Following(old(command), choice)
    {
      hide Sorted, Moved;
      match command {
        case Connect => KeepOn(Ehlo);
        case ConnectLmtp => KeepOn(Lhlo);
        case Ehlo => ProcessEhlo(choice);
        case Lhlo => ProcessEhlo(choice);
        case Helo => KeepOn(MailFrom);
        case Auth =>
          authenticating := false;
          KeepOn(MailFrom);
        case _ =>  // after STARTTLS, socket.upgrade; Secured follows
      }
    }

    method ProcessEhlo(choice: EhloChoice)
      requires Valid() && processing && (command == Ehlo || command == Lhlo)
      modifies this`command, this`processing, this`verdicts, this`authenticating, this`blocked
      ensures Valid() && clean == old(clean) && codes == old(codes)
      ensures processing ==> command == Following(old(command), choice)
      ensures choice == NoTls ==> verdicts == [TempFailAll]
    {
      hide Sorted, Moved;
      match choice {
        case GoMail => KeepOn(MailFrom);
        case GoAuthPlain => KeepOn(Auth);
        case GoAuthDialogue => StartAuth();
        case GoStartTls => KeepOn(StartTls);
        case NoTls =>
          processing := false;
          verdicts := verdicts + [TempFailAll];
      }
    }

    method StartAuth()
      requires Valid() && processing && (command == Ehlo || command == Lhlo)
      modifies this`command, this`processing, this`verdicts, this`authenticating, this`blocked
      ensures Valid() && clean == old(clean) && (processing ==> command == Auth)
    {
      authenticating := true;
      SendCommand(Auth);
    }

    /** The socket has been upgraded to TLS. */
    method Secured()
      requires Valid() && (processing ==> command == StartTls)
      modifies this`command, this`processing, this`verdicts, this`secure, this`blocked
      ensures Valid() && clean == old(clean) && codes == old(codes)
    {
      hide Sorted, Moved;
      secure := true;
      SendCommand(if usingLmtp then Lhlo else Ehlo);
    }

    /** A copy of the message has been written to the end. */
    method DataSent()
      requires Valid() && streams > 0
      modifies this`command, this`processing, this`verdicts, this`streams, this`blocked
      ensures Valid() && clean == old(clean) && codes == old(codes) && streams == old(streams) - 1
      ensures processing ==> old(processing) && command == if usingLmtp then DotLmtp else Dot
      ensures old(processing && writable && (secure || !forceTls)) ==> processing
    {
      hide Sorted, Moved;
      streams := streams - 1;
      if processing {
        SendDot();
      } else {
        SendCommand(if usingLmtp then DotLmtp else Dot);
      }
    }

    method SendDot()
      requires Valid() && processing && command.Late()
      modifies this`command, this`processing, this`verdicts, this`blocked
      ensures Valid() && clean == old(clean)
      ensures processing ==> command == if usingLmtp then DotLmtp else Dot
      ensures writable && (secure || !forceTls) ==> processing
    {
      SendCommand(if usingLmtp then DotLmtp else Dot);
    }

    /** The remote end has sent its FIN. */
    method RemoteEnds()
      requires Valid()
      modifies this`writable
      ensures Valid() && !writable
    {
      writable := false;
    }

    /** The socket's error and close events. */
    method SocketFails()
      requires Valid()
      modifies this`processing, this`verdicts, this`blocked
      ensures Valid() && !processing
      ensures verdicts == old(verdicts) + if old(processing) then [NextHost] else []
    {
      if processing {
        processing := false;
        verdicts := verdicts + [NextHost];
      }
    }
  }

  /** Main results about every run of a session.
      The message gets at most one verdict exactly as long as no reply was of the kind described at
      Doubles, and none is due to one that has stopped exactly when a command was blocked for want of TLS. The
      lists hold no recipient more often than it was answered, so none is in two of them, and none is lost
      unless it was answered by a success code other than 250. When finish_processing_mail has run, every
      recipient was answered. */
  lemma SessionIsSafe(s: Session)
    requires s.Valid()
    ensures |s.verdicts| <= 1 <==> s.clean
    ensures !s.processing ==> (s.verdicts == [] <==> s.blocked)
    ensures s.Current().All() <= multiset(s.recipients[..|s.codes|])
    ensures s.Current().All() == multiset(s.recipients[..|s.codes|]) <==> C2xx !in s.codes
    ensures s.fpCalled ==> s.recipients[..|s.codes|] == s.recipients
  {
    PartitionIff(s.recipients, s.codes, s.dots);
    MovedAll(Sorted(s.recipients, s.codes), s.dots);
    SortedAndMissed(s.recipients, s.codes);
  }

  /** What finish_processing_mail passes on fits HMailItem: the split-off lists are no larger than the
      envelope, and smaller when the delivery counts as a success. */
  lemma FinishedListsFit(s: Session)
    requires s.Valid() && s.fpCalled
    ensures |s.failRecips| + |s.bounceRecips| <= |s.recipients|
    ensures s.verdicts[0].success ==> |s.failRecips| + |s.bounceRecips| < |s.recipients|
  {
    MovedAll(Sorted(s.recipients, s.codes), s.dots);
    SortedAndMissed(s.recipients, s.codes);
    var all, missed := s.Current().All(), Missed(s.recipients, s.codes);
    assert |all + missed| == |s.recipients[..|s.codes|]|;
  }

  // ----- whole sessions -----

  datatype Event =
    | Line(reply: Reply, authContinues: bool, choice: EhloChoice)
    | Upgraded | Sent | RemoteEnded | SocketFailed

  /** A session with any remote end and any fate of its socket. */
  method Run(recipients: seq<Rcpt>, usingLmtp: bool, pooling: bool, forceTls: bool, fromPool: bool, secure: bool,
      events: seq<Event>)
    returns (s: Session)
    requires |recipients| > 0
    ensures fresh(s) && s.Valid() && s.recipients == recipients
    ensures |s.verdicts| <= 1 <==> s.clean
    ensures !s.processing ==> (s.verdicts == [] <==> s.blocked)
    ensures s.Current().All() <= multiset(recipients[..|s.codes|])
    ensures s.Current().All() == multiset(recipients[..|s.codes|]) <==> C2xx !in s.codes
    ensures s.fpCalled ==> |s.codes| == |recipients| && s.verdicts[0].Finish?
  {
    s := new Session(recipients, usingLmtp, pooling, forceTls, fromPool, secure);
    var i := 0;
    while i < |events|
      invariant i <= |events| && fresh(s) && s.Valid() && s.recipients == recipients
    {
      match events[i] {
        case Line(reply, authContinues, choice) => s.OnLine(reply, authContinues, choice);
        case Upgraded => if !s.processing || s.command == StartTls { s.Secured(); }
        case Sent => if s.streams > 0 { s.DataSent(); }
        case RemoteEnded => s.RemoteEnds();
        case SocketFailed => s.SocketFails();
      }
      i := i + 1;
    }
    SessionIsSafe(s);
  }
}
