/**
 The life of one outbound message (email/outbound/hmail.js) from the moment its delivery attempt has a
 verdict: the reference count that decides when its queue file is removed, the callback that frees its
 place in the delivery queue, and the count of failures that bounds its deferrals.

 Everything a hook, a timer or the file system answers later is a separate method, and these may be
 called in any order their preconditions allow; so may the parts of finish_processing_mail, which
 covers hooks that answer at once.
 */
module HMailItem {
  import opened Numbers
  import opened Options
  import opened QFile

  /** How far the attempt has got: dequeued, then through the parts of finish_processing_mail. */
  datatype Stage = Idle | Active | AfterFails | AfterBounces | Concluded

  /** What is being done with the message as a whole, when it was deferred or bounced unsplit. */
  datatype Own =
    | Quiet
    | Deferring       // the deferred hook is running
    | Renaming        // the file is being renamed to its next name
    | Bouncing        // the bounce hook is running
    | Composing       // the bounce message is being built and queued
    | Requeued | Dropped | DoubleBounced

  datatype HookReply = Cont | DenySoft | Other

  datatype BounceOutcome = Queued | ComposeFailed | QueueDenied

  predicate Holds(own: Own) { own != Quiet && own != Dropped }

  class HMail {
    const retries: nat            // temp_fail_intervals.length
    const total: nat              // todo.rcpt_to.length
    const nullSender: bool        // the message is itself a bounce
    var filename: string
    var numFailures: nat
    var refcount: int
    var stage: Stage
    var own: Own
    var deliveredHook: bool       // the delivered hook is running
    var failSplit: bool           // the deferred recipients are being split off
    var bounceSplit: bool
    var unlinks: nat              // removals of the queue file
    var nextCbs: nat              // calls of next_cb since the last dequeue
    ghost var born: nat           // failures recorded when the file was first read
    ghost var deferrals: nat      // deferrals of this file, over every restart

    /** The initial reference, given up when the attempt ends or the delivered hook answers. */
    ghost predicate BaseHeld()
      reads this
    {
      stage != Concluded || deliveredHook
    }

    ghost predicate Outstanding()
      reads this
    {
      failSplit || bounceSplit
    }

    ghost predicate Valid()
      reads this
    {
      && StoredAttempts(filename).Some?
      && refcount == One(BaseHeld()) + One(failSplit) + One(bounceSplit) + One(Holds(own))
      && (deliveredHook ==> stage == Concluded && own == Quiet)
      && (stage in {Idle, Active} ==> own == Quiet && !Outstanding())
      && (own != Quiet ==> !Outstanding())
      && unlinks == One(refcount == 0 || own == DoubleBounced)
      && nextCbs == One(refcount == 0 || own in {Requeued, DoubleBounced})
      && (own in {Deferring, Renaming} ==> 1 <= numFailures <= retries)
      && born + deferrals + One(own in {Deferring, Renaming}) <= numFailures
      && born + deferrals <= StoredAttempts(filename).value
      && (deferrals > 0 ==> born + deferrals <= retries)
    }

    /** Nothing is under way for this attempt any more. */
    ghost predicate Quiescent()
      reads this
    {
      stage == Concluded && !deliveredHook && !Outstanding() && own in {Quiet, Dropped, Requeued, DoubleBounced}
    }

    constructor (filename: string, total: nat, retries: nat, nullSender: bool)
      requires StoredAttempts(filename).Some?
      ensures Valid() && stage == Idle && born == numFailures == StoredAttempts(filename).value
      ensures this.filename == filename && this.total == total && this.retries == retries
              && this.nullSender == nullSender
      ensures nextCbs == unlinks == deferrals == 0
    {
      this.filename, this.total, this.retries, this.nullSender := filename, total, retries, nullSender;
      numFailures, refcount, stage, own := StoredAttempts(filename).value, 1, Idle, Quiet;
      deliveredHook, failSplit, bounceSplit, unlinks, nextCbs := false, false, false, 0, 0;
      born, deferrals := StoredAttempts(filename).value, 0;
    }

    /** The delivery queue takes the message up, for the first time or after a deferral. */
    method Dequeue()
      requires Valid() && (stage == Idle || (Quiescent() && own == Requeued))
      modifies this
      ensures Valid() && stage == Active && own == Quiet && refcount == 1 && nextCbs == unlinks == 0
      ensures numFailures == old(numFailures) && deferrals == old(deferrals) && born == old(born)
              && filename == old(filename)
    {
      stage, own, nextCbs := Active, Quiet, 0;
    }

    /** send_email_respond, when a plugin answers `delay`: the place in the delivery queue is freed, and the
        message waits in the timer queue under its old name. That is no deferral. */
    method Delay()
      requires Valid() && stage == Active
      modifies this
      ensures Valid() && stage == Concluded && own == Requeued && filename == old(filename)
      ensures nextCbs == old(nextCbs) + 1 && unlinks == old(unlinks) && refcount == old(refcount)
      ensures numFailures == old(numFailures) && deferrals == old(deferrals) && born == old(born)
    {
      stage, own, nextCbs := Concluded, Requeued, nextCbs + 1;
    }

    // ----- finish_processing_mail, in its three parts -----

    /** `if (fail_recips.length)`: deferred recipients are split off, unless they are all there are. */
    method FinishFails(fails: nat)
      requires Valid() && stage == Active && fails <= total
      modifies this
      ensures Valid() && stage == AfterFails
      ensures failSplit <==> 0 < fails < total
      ensures 0 < fails == total ==> own == if old(numFailures) + 1 > retries then Bouncing else Deferring
      ensures !(0 < fails == total) ==> own == Quiet
      ensures born == old(born) && deferrals == old(deferrals) && unlinks == old(unlinks) && nextCbs == old(nextCbs)
    {
      hide StoredAttempts;
      stage := AfterFails;
      if fails > 0 {
        refcount := refcount + 1;
        if fails == total {
          // split_to_new_recipients hands back the message itself, with one more reference.
          refcount := refcount + 1;
          refcount := refcount - 1;  // the callback's discard, which cannot be the last
          TempFail();
        } else {
          failSplit := true;
        }
      }
    }

    /** `if (bounce_recips.length)`, likewise. */
    method FinishBounces(bounces: nat)
      requires Valid() && stage == AfterFails && bounces <= total && !bounceSplit
      requires bounces > 0 ==> own == Quiet
      requires bounces == total ==> !failSplit
      modifies this
      ensures Valid() && stage == AfterBounces && failSplit == old(failSplit)
      ensures bounceSplit <==> 0 < bounces < total
      ensures own == if 0 < bounces == total then Bouncing else old(own)
      ensures born == old(born) && deferrals == old(deferrals) && unlinks == old(unlinks) && nextCbs == old(nextCbs)
    {
      hide StoredAttempts;
      stage := AfterBounces;
      if bounces > 0 {
        refcount := refcount + 1;
        if bounces == total {
          refcount := refcount + 1;
          refcount := refcount - 1;
          own := Bouncing;
        } else {
          bounceSplit := true;
        }
      }
    }

    /** The end: the delivered hook runs, or the initial reference is given up at once. */
    method FinishEnd(success: bool)
      requires Valid() && stage == AfterBounces
      requires success ==> own == Quiet  // some recipient was accepted, so no list was the whole envelope
      modifies this
      ensures Valid() && stage == Concluded && own == old(own)
      ensures deliveredHook == success
      ensures unlinks - old(unlinks) == nextCbs - old(nextCbs) == One(refcount == 0)
    {
      stage := Concluded;
      if success {
        deliveredHook := true;
      } else {
        Discard();
      }
    }

    // ----- verdicts on the whole message, without finish_processing_mail (also on a split-off message,
    // which no delivery queue has taken up) -----

    method WholeTempFail()
      requires Valid() && stage in {Idle, Active}
      modifies this
      ensures Valid() && stage == Concluded && born == old(born)
      ensures own == if old(numFailures) + 1 > retries then Bouncing else Deferring
    {
      stage := Concluded;
      TempFail();
    }

    method WholeBounce()
      requires Valid() && stage in {Idle, Active}
      modifies this
      ensures Valid() && stage == Concluded && own == Bouncing
    {
      stage, own := Concluded, Bouncing;
    }

    /** temp_fail: once too often, and it is a bounce. */
    method TempFail()
      requires StoredAttempts(filename).Some? && born + deferrals <= numFailures
      modifies this`numFailures, this`own
      ensures numFailures == old(numFailures) + 1
      ensures own == if numFailures > retries then Bouncing else Deferring
    {
      numFailures := numFailures + 1;
      own := if numFailures > retries then Bouncing else Deferring;
    }

    /** discard: the last reference takes the file and the place in the queue with it. */
    method Discard()
      requires refcount > 0
      modifies this`refcount, this`unlinks, this`nextCbs
      ensures refcount == old(refcount) - 1
      ensures unlinks == old(unlinks) + One(refcount == 0) && nextCbs == old(nextCbs) + One(refcount == 0)
    {
      refcount := refcount - 1;
      if refcount == 0 {
        unlinks := unlinks + 1;
        nextCbs := nextCbs + 1;
      }
    }

    // ----- what comes back later -----

    /** delivered_respond. */
    method DeliveredRespond()
      requires Valid() && deliveredHook
      modifies this
      ensures Valid() && !deliveredHook && stage == Concluded && own == old(own)
      ensures failSplit == old(failSplit) && bounceSplit == old(bounceSplit)
      ensures unlinks == One(!Outstanding()) && nextCbs == One(!Outstanding())
    {
      deliveredHook := false;
      Discard();
    }

    /** The split-off file is in place: the callback gives up a reference and defers the new message. */
    method FailSplitDone(newName: string, fails: nat) returns (split: HMail)
      requires Valid() && failSplit && StoredAttempts(newName) == Some(0)
      modifies this
      ensures Valid() && !failSplit && stage == old(stage) && own == old(own) && bounceSplit == old(bounceSplit)
      ensures fresh(split) && split.Valid() && split.total == fails && split.born == 0
      ensures split.own == if retries == 0 then Bouncing else Deferring
      ensures unlinks == nextCbs == One(refcount == 0)
    {
      hide StoredAttempts;
      failSplit := false;
      Discard();
      split := new HMail(newName, fails, retries, nullSender);
      split.WholeTempFail();
    }

    method BounceSplitDone(newName: string, bounces: nat) returns (split: HMail)
      requires Valid() && bounceSplit && StoredAttempts(newName) == Some(0)
      modifies this
      ensures Valid() && !bounceSplit && stage == old(stage) && own == old(own) && failSplit == old(failSplit)
      ensures fresh(split) && split.Valid() && split.total == bounces && split.own == Bouncing
      ensures unlinks == nextCbs == One(refcount == 0)
    {
      hide StoredAttempts;
      bounceSplit := false;
      Discard();
      split := new HMail(newName, bounces, retries, nullSender);
      split.WholeBounce();
    }

    /** deferred_respond. */
    method DeferredRespond(reply: HookReply)
      requires Valid() && own == Deferring
      modifies this
      ensures Valid() && own == if reply == Other then Dropped else Renaming
      ensures stage == old(stage) && numFailures == old(numFailures) && deferrals == old(deferrals)
    {
      if reply == Other {
        own := Dropped;
        Discard();
        return;
      }
      own := Renaming;
    }

    /** The rename at the end of deferred_respond has succeeded: the message waits in the timer queue. */
    method Renamed(nextAttempt: Option<nat>, amb: Ambient)
      requires Valid() && own == Renaming && PartsOf(filename, amb).Known? && '_' !in amb.unique
      modifies this
      ensures Valid() && own == Requeued && stage == old(stage)
      ensures filename == Name(DeferralOverrides(PartsOf(old(filename), amb).parts, nextAttempt, numFailures), amb)
      ensures StoredAttempts(filename) == Some(numFailures) && numFailures == old(numFailures)
      ensures deferrals == old(deferrals) + 1 && nextCbs == old(nextCbs) + 1 && unlinks == old(unlinks)
    {
      hide StoredAttempts, PartsOf, Name;
      var parts := PartsOf(filename, amb).parts;
      var newFilename := Name(DeferralOverrides(parts, nextAttempt, numFailures), amb);
      DeferralNameKeepsAttempts(filename, amb, amb, nextAttempt, numFailures);
      StoredAttemptsOf(newFilename, amb);
      filename := newFilename;
      own, deferrals := Requeued, deferrals + 1;
      nextCbs := nextCbs + 1;
    }

    /** bounce_respond. */
    method BounceRespond(cont: bool)
      requires Valid() && own == Bouncing
      modifies this
      ensures Valid() && own == if !cont then Dropped else if nullSender then DoubleBounced else Composing
      ensures stage == old(stage) && numFailures == old(numFailures) && deferrals == old(deferrals)
    {
      hide StoredAttempts;
      if !cont {
        own := Dropped;
        Discard();
      } else if nullSender {
        DoubleBounce();
      } else {
        own := Composing;
      }
    }

    method BounceMessage(outcome: BounceOutcome)
      requires Valid() && own == Composing
      modifies this
      ensures Valid() && own == if outcome == Queued then Dropped else DoubleBounced
      ensures stage == old(stage) && numFailures == old(numFailures) && deferrals == old(deferrals)
    {
      match outcome {
        case ComposeFailed => DoubleBounce();
        case QueueDenied => DoubleBounce();
        case Queued =>
          own := Dropped;
          Discard();
      }
    }

    /** double_bounce: the file and the place in the queue go, whatever the reference count. */
    method DoubleBounce()
      requires Holds(own)
      modifies this`own, this`unlinks, this`nextCbs
      ensures own == DoubleBounced && unlinks == old(unlinks) + 1 && nextCbs == old(nextCbs) + 1
    {
      own := DoubleBounced;
      unlinks := unlinks + 1;
      nextCbs := nextCbs + 1;
    }

    /** The process dies and another reads the queue directory: only the file name survives. */
    method Restart()
      requires Valid() && unlinks == 0
      modifies this
      ensures Valid() && stage == Idle && own == Quiet && nextCbs == 0
      ensures numFailures == StoredAttempts(filename).value && filename == old(filename)
      ensures born == old(born) && deferrals == old(deferrals)
    {
      hide StoredAttempts;
      numFailures, refcount, stage, own := StoredAttempts(filename).value, 1, Idle, Quiet;
      deliveredHook, failSplit, bounceSplit, nextCbs := false, false, false, 0;
    }
  }

  /** The main result. In every state the methods can reach, next_cb has been called at most once since
      the dequeue, and exactly once when nothing is left to wait for; the queue file is removed at most
      once, never while a split-off copy is being made, and never after the message was requeued. */
  lemma ReferenceCountIsSafe(h: HMail)
    requires h.Valid()
    ensures h.nextCbs <= 1 && h.unlinks <= 1
    ensures h.Quiescent() ==> h.nextCbs == 1
    ensures h.Quiescent() && h.own != Requeued ==> h.unlinks == 1
    ensures h.unlinks > 0 ==> !h.Outstanding() && h.own != Requeued && !h.deliveredHook
    ensures h.own == Requeued ==> h.unlinks == 0
  {
  }

  /** A queue file is deferred at most as often as there are retry intervals, over every restart. */
  lemma DeferralsAreBounded(h: HMail)
    requires h.Valid()
    ensures h.deferrals <= h.retries
  {
  }

  // ----- whole lives -----

  /** What may happen to a message next: an attempt has one verdict. The counts of Fails and Bounces are those of
      one dialogue; see FinishedListsFit in Dialogue. */
  datatype Event =
    | Dequeued | Delayed | Fails(fails: nat) | Bounces(bounces: nat) | Ended(success: bool)
    | TempFailed | Bounced
    | DeliveredDone | FailSplitOff(newName: string, recipients: nat) | BounceSplitOff(newName: string, recipients: nat)
    | DeferredDone(reply: HookReply) | RenameDone(nextAttempt: Option<nat>, amb: Ambient)
    | BounceDone(cont: bool) | BounceSent(outcome: BounceOutcome) | Restarted

  /** A message in any sound state, and any events in any order; those that cannot happen are passed over. */
  method Run(h: HMail, events: seq<Event>)
    requires h.Valid()
    modifies h
    ensures h.Valid()
    ensures h.nextCbs <= 1 && h.unlinks <= 1 && h.deferrals <= h.retries
    ensures h.Quiescent() ==> h.nextCbs == 1 && h.unlinks == One(h.own != Requeued)
    ensures h.unlinks > 0 ==> !h.Outstanding() && h.own != Requeued && !h.deliveredHook
  {
    var i := 0;
    while i < |events|
      invariant i <= |events| && h.Valid()
    {
      Handle(h, events[i]);
      i := i + 1;
    }
    ReferenceCountIsSafe(h);
    DeferralsAreBounded(h);
  }

  method Handle(h: HMail, e: Event)
    requires h.Valid()
    modifies h
    ensures h.Valid()
  {
    match e {
      case Dequeued =>
        if h.stage == Idle
           || (h.stage == Concluded && h.own == Requeued && !h.deliveredHook && !h.failSplit && !h.bounceSplit) {
          h.Dequeue();
        }
      case Delayed => if h.stage == Active { h.Delay(); }
      case Fails(n) => if h.stage == Active && n <= h.total { h.FinishFails(n); }
      case Bounces(n) =>
        if h.stage == AfterFails && n <= h.total && !h.bounceSplit
           && (n > 0 ==> h.own == Quiet) && (n == h.total ==> !h.failSplit) {
          h.FinishBounces(n);
        }
      case Ended(success) => if h.stage == AfterBounces && (success ==> h.own == Quiet) { h.FinishEnd(success); }
      case TempFailed => if h.stage == Idle || h.stage == Active { h.WholeTempFail(); }
      case Bounced => if h.stage == Idle || h.stage == Active { h.WholeBounce(); }
      case Restarted => if h.unlinks == 0 { h.Restart(); }
      case _ => HandleReply(h, e);
    }
  }

  /** What comes back from hooks, splits and the disk. */
  method HandleReply(h: HMail, e: Event)
    requires h.Valid()
    modifies h
    ensures h.Valid()
  {
    match e {
      case DeliveredDone => if h.deliveredHook { h.DeliveredRespond(); }
      case FailSplitOff(name, n) =>
        if h.failSplit && StoredAttempts(name) == Some(0) { var split := h.FailSplitDone(name, n); }
      case BounceSplitOff(name, n) =>
        if h.bounceSplit && StoredAttempts(name) == Some(0) { var split := h.BounceSplitDone(name, n); }
      case DeferredDone(reply) => if h.own == Deferring { h.DeferredRespond(reply); }
      case RenameDone(nextAttempt, amb) =>
        if h.own == Renaming && PartsOf(h.filename, amb).Known? && '_' !in amb.unique { h.Renamed(nextAttempt, amb); }
      case BounceDone(cont) => if h.own == Bouncing { h.BounceRespond(cont); }
      case BounceSent(outcome) => if h.own == Composing { h.BounceMessage(outcome); }
      case _ =>
    }
  }
}
