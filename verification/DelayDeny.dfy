/**
 The delay_deny plugin (email/plugins/delay_deny.js) as a client of the hook engine: pre-DATA
 rejections are overridden and remembered, then applied when a recipient is about to be accepted.
 */
module DelayDeny {
  import opened HookEngine
  import opened Options

  datatype Phase = LookupRdns | Connect | Ehlo | Helo | Mail | Rcpt | RcptOk | Data | DataPost | OtherHook

  const SELF := "delay_deny"

  /** The params a deny hook is given: the rejection, who made it, in which function and on which hook. */
  datatype Rejection = Rejection(retval: Ret, plugin: string, callee: string, phase: Phase)

  /** delay_deny.ini: which rejections are delayed. A name may be given alone, with its hook, or with
      its hook and function. */
  datatype Selector = Plugin(string) | OnHook(string, Phase) | OnFunction(string, Phase, string)
  datatype Config = DelayAll | Included(set<Selector>) | Excluded(set<Selector>)

  predicate Named(r: Rejection, names: set<Selector>) {
    Plugin(r.plugin) in names || OnHook(r.plugin, r.phase) in names || OnFunction(r.plugin, r.phase, r.callee) in names
  }

  predicate Delays(cfg: Config, r: Rejection) {
    match cfg
    case DelayAll => true
    case Included(names) => Named(r, names)
    case Excluded(names) => !Named(r, names)
  }

  /** connection.notes.delay_deny_pre, and the same note of the transaction if there is one. */
  datatype Notes = Notes(conn: seq<Rejection>, tran: Option<seq<Rejection>>, relaying: bool)

  predicate IsConnectionPhase(p: Phase) { p in {LookupRdns, Connect, Ehlo, Helo} }
  predicate IsTransactionPhase(p: Phase) { p in {Mail, Rcpt, RcptOk} }

  // ----- what the two hooks do -----

  /** Is the rejection set aside, to be applied later? */
  predicate SetAside(cfg: Config, n: Notes, r: Rejection) {
    && r.plugin != SELF && Delays(cfg, r)
    && (IsConnectionPhase(r.phase) || (IsTransactionPhase(r.phase) && n.tran.Some?))
  }

  function Remember(cfg: Config, n: Notes, r: Rejection): Notes {
    if !SetAside(cfg, n, r) then n
    else if IsConnectionPhase(r.phase) then n.(conn := n.conn + [r])
    else n.(tran := Some(n.tran.value + [r]))
  }

  /** The rejection a recipient is due, if any: the oldest of the connection, else of the transaction. */
  function Due(n: Notes): Option<Rejection> {
    if n.tran.None? || n.relaying then None
    else if n.conn != [] then Some(n.conn[0])
    else if n.tran.value != [] then Some(n.tran.value[0])
    else None
  }

  /** Rejections made on the recipient hooks are applied once; the others stay. */
  function AfterDue(n: Notes): Notes {
    if Due(n).Some? && n.conn == [] && n.tran.value[0].phase in {Rcpt, RcptOk}
    then n.(tran := Some(n.tran.value[1..]))
    else n
  }

  class DelayDenyPlugin {
    const cfg: Config
    var notes: Notes

    constructor (cfg: Config, relaying: bool)
      ensures this.cfg == cfg && notes == Notes([], None, relaying)
    {
      this.cfg, notes := cfg, Notes([], None, relaying);
    }

    /** hook_deny. */
    method HookDeny(params: Rejection) returns (verdict: Ret)
      modifies this
      ensures verdict == if SetAside(cfg, old(notes), params) then Ok else Cont
      ensures notes == Remember(cfg, old(notes), params)
    {
      if params.plugin == SELF { return Cont; }
      match cfg {
        case DelayAll =>
        case Included(names) => if !Named(params, names) { return Cont; }
        case Excluded(names) => if Named(params, names) { return Cont; }
      }
      match params.phase {
        case LookupRdns | Connect | Ehlo | Helo =>
          notes := notes.(conn := notes.conn + [params]);
          return Ok;
        case Mail | Rcpt | RcptOk =>
          if notes.tran.None? { return Cont; }  // the hook throws, and the engine takes that for cont
          notes := notes.(tran := Some(notes.tran.value + [params]));
          return Ok;
        case _ =>
          return Cont;
      }
    }

    /** hook_rcpt_ok. */
    method HookRcptOk() returns (verdict: Ret)
      modifies this
      ensures verdict == if Due(old(notes)).Some? then Due(old(notes)).value.retval else Cont
      ensures notes == AfterDue(old(notes))
    {
      if notes.tran.None? { return Cont; }
      if notes.relaying { return Cont; }
      if |notes.conn| > 0 {
        return notes.conn[0].retval;
      }
      if |notes.tran.value| > 0 {
        var params := notes.tran.value[0];
        if params.phase == Rcpt || params.phase == RcptOk {
          notes := notes.(tran := Some(notes.tran.value[1..]));
        }
        return params.retval;
      }
      return Cont;
    }
  }

  // ----- one run of the rcpt_ok hook, with delay_deny both on it and on the deny hook -----

  /** The plugins of the hook, in queue order, with their answers; delay_deny itself is at `at`. On the deny
      hook there are others too: what they answer about each plugin's rejection, those asked before delay_deny
      and those behind it. */
  datatype RcptOkRun = RcptOkRun(plugins: seq<Rejection>, at: nat, ahead: seq<seq<Ret>>, behind: seq<seq<Ret>>) {
    predicate Wf() {
      && at < |plugins| == |ahead| == |behind|
      && (forall i :: 0 <= i < |plugins| ==> plugins[i].phase == RcptOk)
      && (forall i :: 0 <= i < |plugins| && i != at ==> plugins[i].plugin != SELF)
      && (forall i :: 0 <= i < |plugins| ==> |ahead[i]| == |ahead[at]| && |behind[i]| == |behind[at]|)
    }

    /** No plugin before delay_deny ends the hook by anything but a rejection. */
    predicate NoEarlierOk() {
      forall i :: 0 <= i < at && i < |plugins| ==> plugins[i].retval == Cont || IsDeny(plugins[i].retval)
    }

    /** delay_deny is asked about a rejection by plugin i: those before it have left it open. */
    predicate Asked(i: nat)
      requires i < |ahead|
    {
      DenyVerdict(ahead[i]) == Cont
    }

    /** Another plugin of the deny hook overrides what delay_deny itself rejects. */
    predicate Overruled()
      requires Wf()
    {
      DenyVerdict(ahead[at]) == Ok || (DenyVerdict(ahead[at]) == Cont && DenyVerdict(behind[at]) == Ok)
    }
  }

  /** The notes when plugin i of the run is called, if the hook gets that far. */
  function NotesAt(cfg: Config, n: Notes, run: RcptOkRun, i: nat): Notes
    requires run.Wf() && i <= |run.plugins|
  {
    if i == 0 then n
    else
      var before := NotesAt(cfg, n, run, i - 1);
      if i - 1 == run.at then AfterDue(before)
      else if IsDeny(run.plugins[i - 1].retval) && run.Asked(i - 1) then Remember(cfg, before, run.plugins[i - 1])
      else before
  }

  /** What plugin i answers. */
  function MainAnswer(cfg: Config, n: Notes, run: RcptOkRun, i: nat): Ret
    requires run.Wf() && i < |run.plugins|
  {
    if i == run.at then
      var due := Due(NotesAt(cfg, n, run, i));
      if due.Some? then due.value.retval else Cont
    else run.plugins[i].retval
  }

  /** What delay_deny answers on the deny hook about a rejection by plugin i, if it is asked. */
  function DenyAnswer(cfg: Config, n: Notes, run: RcptOkRun, i: nat): Ret
    requires run.Wf() && i < |run.plugins|
  {
    if i != run.at && SetAside(cfg, NotesAt(cfg, n, run, i), run.plugins[i]) then Ok else Cont
  }

  function DenyAnswers(cfg: Config, n: Notes, run: RcptOkRun, i: nat): seq<Ret>
    requires run.Wf() && i < |run.plugins|
  {
    run.ahead[i] + [DenyAnswer(cfg, n, run, i)] + run.behind[i]
  }

  function AnswersOf(cfg: Config, n: Notes, run: RcptOkRun): (a: Answers)
    requires run.Wf()
    ensures a.Wf(|run.plugins|, |run.ahead[run.at]| + 1 + |run.behind[run.at]|)
  {
    Answers(seq(|run.plugins|, i requires 0 <= i < |run.plugins| => MainAnswer(cfg, n, run, i)),
            seq(|run.plugins|, i requires 0 <= i < |run.plugins| => DenyAnswers(cfg, n, run, i)))
  }

  /** rcpt_ok_respond: everything but a rejection accepts the recipient. */
  predicate Accepts(r: Result) {
    r.Responds? && !IsDeny(r.value)
  }

  predicate Accepted(cfg: Config, n: Notes, run: RcptOkRun)
    requires run.Wf()
  {
    Accepts(Outcome(AnswersOf(cfg, n, run), false, 0))
  }

  lemma {:induction false} VerdictAppend(a: seq<Ret>, b: seq<Ret>)
    ensures DenyVerdict(a + b) == if DenyVerdict(a) != Cont then DenyVerdict(a) else DenyVerdict(b)
  {
    if a == [] {
      assert a + b == b;
    } else {
      VerdictAppend(a[1..], b);
      assert (a + b)[1..] == a[1..] + b;
    }
  }

  lemma VerdictIs(cfg: Config, n: Notes, run: RcptOkRun, i: nat)
    requires run.Wf() && i < |run.plugins|
    ensures DenyVerdict(DenyAnswers(cfg, n, run, i)) ==
            if !run.Asked(i) then DenyVerdict(run.ahead[i])
            else if DenyAnswer(cfg, n, run, i) == Ok then Ok
            else DenyVerdict(run.behind[i])
  {
    var own := [DenyAnswer(cfg, n, run, i)];
    VerdictAppend(run.ahead[i] + own, run.behind[i]);
    VerdictAppend(run.ahead[i], own);
    VerdictStep(own, 0);
    VerdictStep(own, 1);
  }

  // ----- rejections that were delayed are applied -----

  ghost predicate OnlyRejections(n: Notes) {
    && (forall r :: r in n.conn ==> IsDeny(r.retval))
    && (n.tran.Some? ==> forall r :: r in n.tran.value ==> IsDeny(r.retval))
  }

  /** A delayed rejection that holds for every later recipient of the transaction. */
  predicate Covered(n: Notes) {
    n.conn != [] || (n.tran.Some? && n.tran.value != [] && n.tran.value[0].phase == Mail)
  }

  lemma {:induction false} CoverLasts(cfg: Config, n: Notes, run: RcptOkRun, i: nat)
    requires run.Wf() && i <= |run.plugins| && Covered(n) && OnlyRejections(n)
    ensures var m := NotesAt(cfg, n, run, i);
            Covered(m) && OnlyRejections(m) && m.relaying == n.relaying && m.tran.Some? == n.tran.Some?
            && (n.conn != [] ==> m.conn == n.conn)
  {
    if i > 0 {
      CoverLasts(cfg, n, run, i - 1);
    }
  }

  /** delay_deny's turn, under cover: it rejects, with the oldest rejection, and the hook goes on behind it
      exactly when another plugin of the deny hook overrides that. */
  lemma OwnTurn(n: Notes, run: RcptOkRun)
    requires run.Wf() && Covered(n) && OnlyRejections(n) && !n.relaying && n.tran.Some?
    ensures IsDeny(MainAnswer(DelayAll, n, run, run.at))
    ensures GoesOn(AnswersOf(DelayAll, n, run), false, run.at) <==> run.Overruled()
  {
    CoverLasts(DelayAll, n, run, run.at);
    VerdictIs(DelayAll, n, run, run.at);
    assert AnswersOf(DelayAll, n, run).denials[run.at] == DenyAnswers(DelayAll, n, run, run.at);
  }

  predicate AllGoOn(a: Answers, n: nat)
    requires n <= |a.main| == |a.denials|
  {
    forall k :: 0 <= k < n ==> GoesOn(a, false, k)
  }

  /** Some plugin before delay_deny ends the hook, and not by a rejection. */
  predicate EndsEarlier(a: Answers, n: nat)
    requires n <= |a.main| == |a.denials|
  {
    exists i :: 0 <= i < n && AllGoOn(a, i) && !GoesOn(a, false, i) && !IsDeny(a.main[i])
  }

  /** Under cover, exactly when a recipient is accepted: a plugin before delay_deny ends the hook by something
      other than a rejection; or the hook gets to delay_deny, another plugin of the deny hook answers OK to
      delay_deny's own rejection, and the rest of the hook does not reject. */
  lemma AcceptedUnderCoverIff(n: Notes, run: RcptOkRun)
    requires run.Wf() && Covered(n) && OnlyRejections(n) && !n.relaying && n.tran.Some?
    ensures var a := AnswersOf(DelayAll, n, run);
            Accepted(DelayAll, n, run)
            <==> EndsEarlier(a, run.at)
                 || (AllGoOn(a, run.at) && run.Overruled() && Accepts(Outcome(a, false, run.at + 1)))
  {
    var a := AnswersOf(DelayAll, n, run);
    var first := OutcomeIsFirstDecisive(a, false, 0);
    OwnTurn(n, run);
    if first < run.at {
      assert AllGoOn(a, first) && !GoesOn(a, false, first);
    } else {
      SkipTo(a, run.at);
    }
  }

  lemma {:induction false} SkipTo(a: Answers, i: nat)
    requires i <= |a.main| == |a.denials| && AllGoOn(a, i)
    ensures Outcome(a, false, 0) == Outcome(a, false, i)
  {
    if i > 0 {
      SkipTo(a, i - 1);
      assert GoesOn(a, false, i - 1);
    }
  }

  /** In particular none is, if no plugin before delay_deny says OK and none overrules it. */
  lemma ReachesDelayDeny(n: Notes, run: RcptOkRun)
    requires run.Wf() && run.NoEarlierOk() && !run.Overruled()
    requires Covered(n) && OnlyRejections(n) && !n.relaying && n.tran.Some?
    ensures !Accepted(DelayAll, n, run)
  {
    AcceptedUnderCoverIff(n, run);
  }

  /** And one is that is to be rejected, if another plugin of the deny hook answers OK to that. */
  lemma OverruledIsAccepted(r: Rejection)
    requires IsDeny(r.retval)
    ensures var n := Notes([r], Some([]), false);
            var run := RcptOkRun([Rejection(Cont, SELF, "hook_rcpt_ok", RcptOk)], 0, [[]], [[Ok]]);
            Due(n) == Some(r) && Accepted(DelayAll, n, run)
  {
    var n := Notes([r], Some([]), false);
    var run := RcptOkRun([Rejection(Cont, SELF, "hook_rcpt_ok", RcptOk)], 0, [[]], [[Ok]]);
    VerdictStep([Ok], 0);
    assert run.Overruled();
    AcceptedUnderCoverIff(n, run);
  }

  // ----- whole sessions -----

  /** What happens in a session, as far as delay_deny sees it. */
  datatype Event =
    | Rejects(r: Rejection, asked: bool)    // a plugin rejects on some hook, and the deny hook runs
    | RcptOkHook(run: RcptOkRun)            // a recipient got as far as the rcpt_ok hook
    | NewTransaction
    | TransactionEnds

  /** The rcpt_ok hook runs with a transaction; no plugin on it lets a recipient past delay_deny. */
  predicate EventWf(n: Notes, e: Event) {
    match e
    case Rejects(r, _) => IsDeny(r.retval)
    case RcptOkHook(run) => n.tran.Some? && run.Wf() && run.NoEarlierOk() && !run.Overruled()
    case NewTransaction => true
    case TransactionEnds => true
  }

  /** How far the hook gets. */
  function Stops(a: Answers, i: nat): (k: nat)
    requires i <= |a.main| == |a.denials|
    ensures k <= |a.main|
    decreases |a.main| - i
  {
    if i == |a.main| then i else if GoesOn(a, false, i) then Stops(a, i + 1) else i + 1
  }

  function Step(n: Notes, e: Event): Notes
    requires EventWf(n, e)
  {
    match e
    case Rejects(r, asked) => if asked then Remember(DelayAll, n, r) else n
    case RcptOkHook(run) => NotesAt(DelayAll, n, run, Stops(AnswersOf(DelayAll, n, run), 0))
    case NewTransaction => n.(tran := Some([]))
    case TransactionEnds => n.(tran := None)
  }

  predicate SessionWf(n: Notes, events: seq<Event>)
    decreases |events|
  {
    events == [] || (EventWf(n, events[0]) && SessionWf(Step(n, events[0]), events[1..]))
  }

  predicate AnyAccepted(n: Notes, events: seq<Event>)
    requires SessionWf(n, events)
    decreases |events|
  {
    if events == [] then false
    else
      var e := events[0];
      (e.RcptOkHook? && Accepted(DelayAll, n, e.run)) || AnyAccepted(Step(n, e), events[1..])
  }

  /** The main result: with everything delayed, once a rejection of the connection phase has been set
      aside no later recipient of the session is accepted, and once one of the MAIL phase has been, no
      later recipient of that transaction is. */
  lemma {:induction false} DelayedMeansRejected(n: Notes, events: seq<Event>)
    requires SessionWf(n, events)
    requires OnlyRejections(n) && !n.relaying && Covered(n)
    requires n.conn == [] ==> NewTransaction !in events && TransactionEnds !in events
    ensures !AnyAccepted(n, events)
    decreases |events|
  {
    if events != [] {
      var e := events[0];
      match e {
        case RcptOkHook(run) =>
          ReachesDelayDeny(n, run);
          CoverLasts(DelayAll, n, run, Stops(AnswersOf(DelayAll, n, run), 0));
        case _ =>
      }
      DelayedMeansRejected(Step(n, e), events[1..]);
    }
  }

  /** A rejection on the connection or MAIL hooks is in fact set aside, and gives such cover: a MAIL
      rejection always comes first in its transaction. */
  lemma SettingAsideCovers(n: Notes, r: Rejection)
    requires IsDeny(r.retval) && r.plugin != SELF
    requires IsConnectionPhase(r.phase)
             || (r.phase == Mail && n.tran.Some? && (n.tran.value == [] || n.tran.value[0].phase == Mail))
    ensures SetAside(DelayAll, n, r) && Covered(Remember(DelayAll, n, r))
    ensures OnlyRejections(n) ==> OnlyRejections(Remember(DelayAll, n, r))
  {
  }

  /** A rejection of the RCPT phase gives no such cover: it is spent on the next recipient only. */
  lemma RcptRejectionIsSpentOnce(n: Notes, r: Rejection)
    requires n.conn == [] && n.tran == Some([]) && !n.relaying && IsDeny(r.retval) && r.plugin != SELF
             && r.phase == Rcpt
    ensures Due(Remember(DelayAll, n, r)) == Some(r)
    ensures Due(AfterDue(Remember(DelayAll, n, r))) == None
  {
  }
}
