/**
 Forwarding a message to the next server (email/plugins/queue/smtp_forward.js, queue_forward), as one message
 for all recipients or as one for each. The next server answers every command as it likes.
 */
module SmtpForward {

  type Rcpt = string

  datatype Command = Mail | RcptTo(rcpt: Rcpt) | Data | Body | Rset | Nothing

  datatype Verdict = Queued | Denied | DeniedSoft

  /** What a message is: one recipient each, or all of them. */
  function Messages(rcptTo: seq<Rcpt>, perRcpt: bool): seq<seq<Rcpt>> {
    if !perRcpt then [rcptTo]
    else if rcptTo == [] then []
    else Messages(rcptTo[..|rcptTo| - 1], true) + [[rcptTo[|rcptTo| - 1]]]
  }

  class Forward {
    const rcptTo: seq<Rcpt>
    const oneMessagePerRcpt: bool
    var rcpt: nat
    var last: Command                // the command whose reply is awaited
    var verdicts: seq<Verdict>       // calls of next
    ghost var envelope: seq<Rcpt>    // the recipients accepted since the last MAIL
    ghost var delivered: seq<seq<Rcpt>>

    ghost predicate Valid()
      reads this
    {
      && rcptTo != [] && rcpt <= |rcptTo| && |verdicts| <= 1
      && (last == Nothing <==> verdicts != [])
      && (verdicts != [] && verdicts[0] == Queued ==> delivered == Messages(rcptTo, oneMessagePerRcpt))
      && (verdicts == [] ==> if oneMessagePerRcpt then OneByOne() else AllAtOnce())
    }

    ghost predicate OneByOne()
      requires rcpt <= |rcptTo|
      reads this
    {
      match last
      case Mail => rcpt < |rcptTo| && envelope == [] && delivered == Messages(rcptTo[..rcpt], true)
      case RcptTo(r) => rcpt > 0 && r == rcptTo[rcpt - 1] && envelope == []
          && delivered == Messages(rcptTo[..rcpt - 1], true)
      case Data => rcpt > 0 && envelope == [rcptTo[rcpt - 1]] && delivered == Messages(rcptTo[..rcpt - 1], true)
      case Body => rcpt > 0 && envelope == [rcptTo[rcpt - 1]] && delivered == Messages(rcptTo[..rcpt - 1], true)
      case Rset => rcpt < |rcptTo| && delivered == Messages(rcptTo[..rcpt], true)
      case Nothing => true
    }

    ghost predicate AllAtOnce()
      requires rcpt <= |rcptTo|
      reads this
    {
      && delivered == []
      && match last
         case Mail => rcpt == 0 && envelope == []
         case RcptTo(r) => rcpt > 0 && r == rcptTo[rcpt - 1] && envelope == rcptTo[..rcpt - 1]
         case Data => rcpt == |rcptTo| && envelope == rcptTo
         case Body => rcpt == |rcptTo| && envelope == rcptTo
         case Rset => false
         case Nothing => true
    }

    constructor (rcptTo: seq<Rcpt>, oneMessagePerRcpt: bool)
      requires rcptTo != []
      ensures Valid() && verdicts == [] && delivered == []
      ensures this.rcptTo == rcptTo && this.oneMessagePerRcpt == oneMessagePerRcpt
    {
      this.rcptTo, this.oneMessagePerRcpt := rcptTo, oneMessagePerRcpt;
      rcpt, last, verdicts, envelope, delivered := 0, Mail, [], [], [];
    }

    method SendRcpt()
      requires rcpt <= |rcptTo|
      modifies this`rcpt, this`last
      ensures if old(rcpt) == |rcptTo| then rcpt == old(rcpt) && last == Data
              else rcpt == old(rcpt) + 1 && last == RcptTo(rcptTo[rcpt - 1])
    {
      if rcpt == |rcptTo| {
        last := Data;
        return;
      }
      last := RcptTo(rcptTo[rcpt]);
      rcpt := rcpt + 1;
    }

    /** The command that a good reply to the last one leads to. */
    ghost function Following(): Command
      requires Valid() && verdicts == []
      reads this
    {
      match last
      case Mail => RcptTo(rcptTo[rcpt])
      case RcptTo(_) => if oneMessagePerRcpt || rcpt == |rcptTo| then Data else RcptTo(rcptTo[rcpt])
      case Data => Body
      case Body => if rcpt < |rcptTo| then Rset else Nothing
      case Rset => Mail
    }

    /** A good reply to the last command: the event named after it. */
    method OnSuccess()
      requires Valid() && verdicts == []
      modifies this
      ensures Valid() && last == old(Following())
      ensures verdicts == if last == Nothing then [Queued] else []
      ensures old(last).RcptTo? ==> envelope == old(envelope) + [old(last).rcpt]
    {
      match last {
        case Mail => SendRcpt();
        case RcptTo(r) =>
          envelope := envelope + [r];
          if oneMessagePerRcpt {
            last := Data;
          } else {
            assert rcptTo[..rcpt] == rcptTo[..rcpt - 1] + [r];
            assert rcptTo[..|rcptTo|] == rcptTo;
            SendRcpt();
          }
        case Data => last := Body;  // start_data
        case Body => OnDot();
        case Rset =>
          envelope := [];
          last := Mail;
      }
    }

    /** The message is accepted. */
    method OnDot()
      requires Valid() && verdicts == [] && last == Body
      modifies this`last, this`verdicts, this`delivered
      ensures Valid() && last == if rcpt < |rcptTo| then Rset else Nothing
      ensures delivered == old(delivered) + [old(envelope)]
      ensures verdicts == if rcpt < |rcptTo| then [] else [Queued]
    {
      delivered := delivered + [envelope];
      if oneMessagePerRcpt {
        OneMore(rcptTo, rcpt);
      }
      if rcpt < |rcptTo| {
        last := Rset;
        return;
      }
      assert rcptTo[..rcpt] == rcptTo;
      last, verdicts := Nothing, verdicts + [Queued];
    }

    /** bad_code. */
    method OnBadCode(permanent: bool)
      requires Valid() && verdicts == []
      modifies this
      ensures Valid() && verdicts == [if permanent then Denied else DeniedSoft]
    {
      last, verdicts := Nothing, verdicts + [if permanent then Denied else DeniedSoft];
    }
  }

  lemma OneMore(rcptTo: seq<Rcpt>, n: nat)
    requires 0 < n <= |rcptTo|
    ensures Messages(rcptTo[..n], true) == Messages(rcptTo[..n - 1], true) + [[rcptTo[n - 1]]]
  {
    assert rcptTo[..n][..n - 1] == rcptTo[..n - 1];
  }

  lemma {:induction false} MessagesAre(rcptTo: seq<Rcpt>)
    ensures |Messages(rcptTo, true)| == |rcptTo|
    ensures forall i :: 0 <= i < |rcptTo| ==> Messages(rcptTo, true)[i] == [rcptTo[i]]
  {
    if rcptTo != [] {
      MessagesAre(rcptTo[..|rcptTo| - 1]);
    }
  }

  /** Whatever the next server answers, next is called at most once; and when it is told that the message is
      queued, every recipient has been accepted in exactly one message that was accepted: its own, or the
      one for all. */
  lemma QueuedMeansDelivered(f: Forward)
    requires f.Valid()
    ensures |f.verdicts| <= 1
    ensures Queued in f.verdicts && f.oneMessagePerRcpt ==>
              |f.delivered| == |f.rcptTo| && forall i :: 0 <= i < |f.rcptTo| ==> f.delivered[i] == [f.rcptTo[i]]
    ensures Queued in f.verdicts && !f.oneMessagePerRcpt ==> f.delivered == [f.rcptTo]
  {
    MessagesAre(f.rcptTo);
  }
}
