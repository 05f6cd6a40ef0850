/**
 The plugin hook engine (email/plugins.js).

 A hook runs its plugins one at a time. Each run of a plugin is a closure with its own flags, and its
 callback may be called at any later moment, twice, after a timeout, or never. A rejection starts a
 nested run of the `deny` hook, which may override it and resume the saved queue. The class below does
 what that code does to its fields; the recursive function Outcome says what it is for.
 */
module HookEngine {

  import opened Options

  /** The return codes of haraka-constants. */
  datatype Ret =
    | Cont | Stop | Deny | DenySoft | DenyDisconnect | Disconnect
    | Ok | NextHook | Delay | DenySoftDisconnect

  predicate IsDeny(r: Ret) {
    r in {Deny, DenySoft, DenyDisconnect, DenySoftDisconnect}
  }

  /** `if (!retval) retval = constants.cont`. */
  function Normalised(r: Option<Ret>): Ret {
    if r.Some? then r.value else Cont
  }

  // ----- what a hook is for -----

  /** The deny hook's verdict: the first result that is not `cont`, else `cont`. */
  function DenyVerdict(results: seq<Ret>): Ret {
    if results == [] then Cont
    else if results[0] == Cont then DenyVerdict(results[1..])
    else results[0]
  }

  lemma VerdictStep(results: seq<Ret>, j: nat)
    requires j <= |results|
    ensures DenyVerdict(results[j..]) ==
            if j == |results| then Cont
            else if results[j] == Cont then DenyVerdict(results[j + 1..])
            else results[j]
  {
    if j < |results| {
      assert results[j..][1..] == results[j + 1..];
    }
  }

  /** What is asked of plugins: `main[i]` is the first thing plugin i answers, `denials[i][j]` the first
      thing deny plugin j answers when asked about a rejection by plugin i. */
  datatype Answers = Answers(main: seq<Ret>, denials: seq<seq<Ret>>) {
    predicate Wf(n: nat, m: nat) {
      && |main| == n && |denials| == n
      && forall i :: 0 <= i < n ==> |denials[i]| == m
    }
  }

  /** Does plugin i's answer leave the hook to the plugins behind it? */
  predicate GoesOn(a: Answers, isInit: bool, i: nat)
    requires i < |a.main| == |a.denials|
  {
    a.main[i] == Cont || (IsDeny(a.main[i]) && !isInit && DenyVerdict(a.denials[i]) == Ok)
  }

  /** Plugin i rejects, and the deny hook ends in a plugin of its own rejecting that. */
  predicate Loses(a: Answers, isInit: bool, i: nat)
    requires i < |a.main| == |a.denials|
  {
    IsDeny(a.main[i]) && !isInit && IsDeny(DenyVerdict(a.denials[i]))
  }

  /** What comes of a hook: its responder is called with a value, or it never is. */
  datatype Result = Responds(value: Ret) | Never

  /** The recursive specification, from plugin i on. */
  function Outcome(a: Answers, isInit: bool, i: nat): Result
    requires i <= |a.main| == |a.denials|
    decreases |a.main| - i
  {
    if i == |a.main| then Responds(Cont)
    else if GoesOn(a, isInit, i) then Outcome(a, isInit, i + 1)
    else if Loses(a, isInit, i) then Never
    else Responds(a.main[i])
  }

  /** Outcome is decided by the first plugin, in queue order, that does not leave it to the others: by its
      answer, or by a deny plugin that rejects its rejection. */
  lemma {:induction false} OutcomeIsFirstDecisive(a: Answers, isInit: bool, from: nat) returns (i: nat)
    requires from <= |a.main| == |a.denials|
    ensures from <= i <= |a.main|
    ensures forall k :: from <= k < i ==> GoesOn(a, isInit, k)
    ensures if i == |a.main| then Outcome(a, isInit, from) == Responds(Cont)
            else !GoesOn(a, isInit, i)
                 && Outcome(a, isInit, from) == if Loses(a, isInit, i) then Never else Responds(a.main[i])
    decreases |a.main| - from
  {
    if from == |a.main| || !GoesOn(a, isInit, from) {
      i := from;
    } else {
      i := OutcomeIsFirstDecisive(a, isInit, from + 1);
    }
  }

  // ----- the engine -----

  datatype Item = Item(plugin: nat, timeout: bool, skipped: bool)

  datatype Hook = Main | DenyHook

  /** The variables one call of run_next_hook closes over. */
  datatype Frame = Frame(hook: Hook, item: Option<Item>, calledOnce: bool, timedOut: bool,
                         cancelled: bool, timer: bool)

  /** get_denyfn's closure. For the hook itself it reports the rejection to the responder; for a rejection
      by a deny plugin the responder it calls is the object's deny_respond, which is the closure itself. */
  datatype DenyFn = Report(retval: Ret) | Itself

  /** Where a run of the hook has got to. */
  datatype Turn =
    | NextMain(i: nat)            // about to run plugin i of the hook
    | AtMain(i: nat)              // plugin i has been called, its first answer is awaited
    | NextDeny(i: nat, j: nat)    // about to ask deny plugin j about plugin i's rejection
    | AtDeny(i: nat, j: nat)
    | NextLost                    // a deny plugin has rejected, and the hook's own closure is forgotten
    | AtLost
    | Stuck                       // the closure calls itself without end
    | Done
    | Halted                      // cancelled, or the client has gone: nothing more will happen
    | Overtaken                   // a required hook has taken the queue, and the plugin awaited may still answer

  /** From a queue to its next plugin, past those that are skipped, or to the end. */
  predicate WentOn(t: Turn, t': Turn) {
    match t
    case NextMain(i) => (t'.AtMain? && t'.i >= i) || t'.Done?
    case NextDeny(i, j) => (t'.AtDeny? && t'.i == i && t'.j >= j) || t'.Done?
    case NextLost => t'.AtLost? || t'.Stuck?
    case _ => false
  }

  /** What the answer of the plugin awaited may lead to. */
  predicate Moved(t: Turn, t': Turn) {
    match t
    case AtMain(i) => (t'.AtMain? && t'.i > i) || (t'.AtDeny? && t'.i == i) || t'.Done?
    case AtDeny(i, j) =>
      (t'.AtDeny? && t'.i == i && t'.j > j) || (t'.AtMain? && t'.i > i) || t'.AtLost? || t'.Stuck? || t'.Done?
    case AtLost => t'.AtLost? || t'.Stuck?
    case _ => false
  }

  /** How many answers `n` plugins may need, when each may be asked about at `m` deny plugins. */
  function Asks(n: nat, m: nat): nat {
    if n == 0 then 0 else Asks(n - 1, m) + m + 1
  }

  class HookRun {
    const items: seq<Item>        // registered_hooks[hook]
    const denyItems: seq<Item>    // registered_hooks['deny']
    const isInit: bool            // the hook's name starts with 'init_'
    var hooksToRun: seq<Item>
    var savedHooksToRun: seq<Item>
    var shared: bool              // both names stand for one array
    var frames: seq<Frame>
    var currentHook: Option<nat>
    var denyRespond: Option<DenyFn>
    var disconnected: bool
    var responses: seq<Ret>       // calls of the hook's responder

    const answers: Answers        // what the plugins will answer
    var turn: Turn

    ghost predicate Wf() {
      && answers.Wf(|items|, |denyItems|)
      && (forall i :: 0 <= i < |items| && items[i].skipped ==> answers.main[i] == Cont)
      && (forall i, j :: 0 <= i < |items| && 0 <= j < |denyItems| && denyItems[j].skipped ==>
          answers.denials[i][j] == Cont)
    }

    ghost function Expected(): Result
      requires Wf()
    {
      Outcome(answers, isInit, 0)
    }

    /** The hook is undecided and plugin i is next to count. */
    ghost predicate MainOpen(i: nat)
      requires Wf()
    {
      i <= |items| && Expected() == Outcome(answers, isInit, i)
    }

    /** Plugin i has rejected, and deny plugin j is next to count. */
    ghost predicate DenyOpen(i: nat, j: nat)
      requires Wf()
    {
      && i < |items| && j <= |denyItems| && !isInit && MainOpen(i) && IsDeny(answers.main[i])
      && DenyVerdict(answers.denials[i]) == DenyVerdict(answers.denials[i][j..])
    }

    /** What the turn says of the outcome. */
    ghost predicate Open(t: Turn)
      requires Wf()
    {
      match t
      case NextMain(i) => MainOpen(i)
      case AtMain(i) => i < |items| && MainOpen(i)
      case NextDeny(i, j) => DenyOpen(i, j)
      case AtDeny(i, j) => j < |denyItems| && DenyOpen(i, j)
      case NextLost => Expected().Never?
      case AtLost => Expected().Never?
      case Stuck => Expected().Never?
      case Done => Expected().Responds?
      case Halted => true
      case Overtaken => true
    }

    /** Every closure but the one being answered has been answered. */
    ghost predicate AllCalled()
      reads this`frames
    {
      forall k :: 0 <= k < |frames| ==> frames[k].calledOnce
    }

    /** The newest closure waits for its first callback; all older ones have had theirs. */
    ghost predicate Awaiting(hook: Hook)
      reads this`frames
    {
      && |frames| > 0
      && (forall k :: 0 <= k < |frames| - 1 ==> frames[k].calledOnce)
      && var f := frames[|frames| - 1];
      f.hook == hook && f.item.Some? && !f.calledOnce && !f.cancelled
    }

    ghost predicate Queue(main: nat)
      reads this`hooksToRun
    {
      main <= |items| && hooksToRun == items[main..]
    }

    /** The deny hook runs about plugin i, with the rest of the hook saved. */
    ghost predicate DenyQueue(i: nat, j: nat)
      requires Wf()
      reads this`hooksToRun, this`savedHooksToRun, this`shared, this`denyRespond
    {
      && j <= |denyItems| && hooksToRun == denyItems[j..]
      && Saved(i)
    }

    ghost predicate Saved(i: nat)
      requires Wf()
      reads this`savedHooksToRun, this`shared, this`denyRespond
    {
      i < |items| && savedHooksToRun == items[i + 1..] && !shared && denyRespond == Some(Report(answers.main[i]))
    }

    ghost predicate Fields()
      requires Wf()
      reads this
    {
      match turn
      case NextMain(i) => Queue(i) && AllCalled()
      case AtMain(i) => Queue(i + 1) && Awaiting(Main)
      case NextDeny(i, j) => DenyQueue(i, j) && AllCalled()
      case AtDeny(i, j) => DenyQueue(i, j + 1) && Awaiting(DenyHook)
      case NextLost => denyRespond == Some(Itself) && AllCalled()
      case AtLost => denyRespond == Some(Itself) && Awaiting(DenyHook)
      case Stuck => AllCalled()
      case Done => AllCalled()
      case Halted => forall k :: 0 <= k < |frames| ==> frames[k].calledOnce || frames[k].cancelled
      case Overtaken => true
    }

    ghost predicate Valid()
      reads this
    {
      && Wf() && Open(turn) && Fields()
      && responses == (if turn.Done? && Expected().Responds? then [Expected().value] else [])
      && (currentHook.Some? ==> currentHook.value == |frames| - 1 && (Waiting() || turn.Halted?))
    }

    predicate Waiting()
      reads this`turn
    {
      turn.AtMain? || turn.AtDeny? || turn.AtLost?
    }

    /** A plugin is awaited whose answer may decide the hook. */
    predicate Asking()
      reads this`turn
    {
      turn.AtMain? || turn.AtDeny?
    }

    /** The closure whose callback would be acted on. */
    predicate Live(k: nat)
      reads this`turn, this`frames, this`disconnected
    {
      Waiting() && k == |frames| - 1 && !disconnected
    }

    /** The answer the environment gives next, if it gives one; behind a deny plugin's rejection it may be
        any. */
    predicate Answers(retval: Ret)
      requires Valid()
      reads this
    {
      match turn
      case AtMain(i) => retval == answers.main[i]
      case AtDeny(i, j) => retval == answers.denials[i][j]
      case _ => true
    }

    /** How many answers the run may still need. */
    function Fuel(t: Turn): int {
      match t
      case AtMain(i) => if i <= |items| then Asks(|items| - i, |denyItems|) else 0
      case AtDeny(i, j) => if i < |items| then Asks(|items| - i - 1, |denyItems|) + |denyItems| - j else 0
      case _ => 0
    }

    /** Nothing is under way: answered, given up, or waiting for exactly the newest closure. */
    predicate Settled()
      reads this`turn
    {
      Waiting() || turn.Stuck? || turn.Done? || turn.Halted? || turn.Overtaken?
    }

    predicate Starting(hook: Hook)
      reads this`turn
    {
      if hook == Main then turn.NextMain? else turn.NextDeny? || turn.NextLost?
    }

    constructor (items: seq<Item>, denyItems: seq<Item>, isInit: bool, answers: Answers)
      requires answers.Wf(|items|, |denyItems|)
      requires forall i :: 0 <= i < |items| && items[i].skipped ==> answers.main[i] == Cont
      requires forall i, j :: 0 <= i < |items| && 0 <= j < |denyItems| && denyItems[j].skipped ==>
               answers.denials[i][j] == Cont
      ensures Valid() && turn == NextMain(0) && !disconnected && frames == []
      ensures this.items == items && this.denyItems == denyItems && this.isInit == isInit && this.answers == answers
    {
      this.items, this.denyItems, this.isInit, this.answers := items, denyItems, isInit, answers;
      hooksToRun, savedHooksToRun, shared, frames, currentHook := items, [], false, [], None;
      denyRespond, disconnected, responses, turn := None, false, [], NextMain(0);
    }

    /** Nothing is awaited, and the hook can still be answered. */
    ghost predicate Between()
      reads this
    {
      Wf() && AllCalled() && responses == [] && currentHook.None? && !disconnected
    }

    /** The plugin awaited has answered, and its queue is the one under way. */
    ghost predicate Answered(hook: Hook)
      requires Wf()
      reads this
    {
      match turn
      case AtMain(i) => hook == Main && Queue(i + 1)
      case AtDeny(i, j) => hook == DenyHook && DenyQueue(i, j + 1)
      case AtLost => hook == DenyHook && denyRespond == Some(Itself)
      case _ => false
    }

    ghost predicate AnswerIs(t: Turn, retval: Ret)
      requires Wf() && Open(t)
    {
      match t
      case AtMain(i) => retval == answers.main[i]
      case AtDeny(i, j) => retval == answers.denials[i][j]
      case _ => true
    }

    /** The hook, or the deny hook inside it, ends in `retval`. */
    ghost predicate Decided(hook: Hook, retval: Ret)
      requires Wf()
      reads this
    {
      if hook == Main then Expected() == Responds(retval)
      else if denyRespond == Some(Itself) then Expected().Never? && (turn.AtLost? || turn.NextLost?)
      else
        && (turn.AtDeny? || turn.NextDeny?) && Saved(turn.i) && MainOpen(turn.i) && !isInit
        && IsDeny(answers.main[turn.i]) && retval == DenyVerdict(answers.denials[turn.i]) && !IsDeny(retval)
    }

    ghost predicate Lost(hook: Hook)
      reads this`denyRespond
    {
      hook == DenyHook && denyRespond == Some(Itself)
    }

    /** An override goes on behind the plugin that rejected. */
    predicate Overridden(t: Turn, t': Turn) {
      if t.AtLost? || t.NextLost? then t'.AtLost? || t'.Stuck?
      else t'.Done? || (t'.AtMain? && (t.AtDeny? || t.NextDeny?) && t'.i > t.i)
    }

    function Called(t: Turn): Turn {
      match t
      case NextMain(i) => AtMain(i)
      case NextDeny(i, j) => AtDeny(i, j)
      case _ => AtLost
    }

    function Behind(t: Turn): Turn {
      match t
      case AtMain(i) => NextMain(i + 1)
      case AtDeny(i, j) => NextDeny(i, j + 1)
      case _ => NextLost
    }

    /** What an answer says of the outcome. */
    lemma AnswerCounts(t: Turn, retval: Ret)
      requires Wf() && Open(t) && AnswerIs(t, retval) && (t.AtMain? || t.AtDeny? || t.AtLost?)
      ensures retval == Cont ==> Open(Behind(t))
      ensures t.AtMain? && retval != Cont && (isInit || !IsDeny(retval)) ==> Expected() == Responds(retval)
      ensures t.AtDeny? && retval != Cont ==> DenyVerdict(answers.denials[t.i]) == retval
      ensures t.AtDeny? && IsDeny(retval) ==> Expected() == Never
    {
      if t.AtDeny? {
        VerdictStep(answers.denials[t.i], t.j);
      }
    }

    lemma EndCounts(t: Turn)
      requires Wf() && Open(t)
      ensures t == NextMain(|items|) ==> Expected() == Responds(Cont)
      ensures t.NextDeny? && t.j == |denyItems| ==> DenyVerdict(answers.denials[t.i]) == Cont
    {
      if t.NextDeny? {
        VerdictStep(answers.denials[t.i], t.j);
      }
    }

    /** What a rejection by plugin i comes to, by the verdict of the deny hook. */
    lemma VerdictCounts(i: nat)
      requires Wf() && i < |items| && MainOpen(i) && !isInit && IsDeny(answers.main[i])
      ensures DenyVerdict(answers.denials[i]) == Ok ==> MainOpen(i + 1)
      ensures var v := DenyVerdict(answers.denials[i]);
              v != Ok && !IsDeny(v) ==> Expected() == Responds(answers.main[i])
    {
    }

    // ----- the methods of plugins.js -----

    /** run_hooks, for the hook itself. */
    method RunHooks()
      requires Valid() && turn == NextMain(0)
      modifies this
      ensures Valid() && Settled() && disconnected == old(disconnected)
      ensures if old(disconnected) then turn.Halted? else turn.AtMain? || turn.Done?
    {
      if disconnected {
        turn := Halted;
        return;
      }
      hooksToRun := items;
      RunNextHook(Main);
    }

    /** run_next_hook. It asks the next plugin, or ends the hook; for a client that has gone it does nothing. */
    method RunNextHook(hook: Hook)
      requires Valid() && Starting(hook)
      modifies this
      ensures Valid() && disconnected == old(disconnected)
      ensures if old(disconnected) then turn.Halted? && frames == old(frames) && hooksToRun == old(hooksToRun)
              else WentOn(old(turn), turn)
      decreases 0, |hooksToRun|, 4
    {
      hide Outcome, DenyVerdict;
      if disconnected {
        turn := Halted;
        return;
      }
      if |hooksToRun| == 0 {
        AtEnd(hook);
        return;
      }
      var item := Shift(hook);
      if item.skipped {
        Skip(hook);
        return;
      }
      currentHook := Some(|frames| - 1);
      // The plugin is called here; its callback, now or later, is a call of Callback.
    }

    /** The next plugin comes off the queue, and gets its closure. */
    method Shift(hook: Hook) returns (item: Item)
      requires Valid() && Starting(hook) && |hooksToRun| > 0
      modifies this`hooksToRun, this`savedHooksToRun, this`frames, this`turn
      ensures Valid() && turn == Called(old(turn))
      ensures item == old(hooksToRun)[0] && hooksToRun == old(hooksToRun)[1..]
      ensures frames == old(frames) + [Frame(hook, Some(item), false, false, false, item.timeout)]
      ensures item.skipped ==> Answers(Cont)
    {
      hide Outcome, DenyVerdict;
      item := hooksToRun[0];
      hooksToRun := hooksToRun[1..];
      if shared {
        savedHooksToRun := hooksToRun;
      }
      frames := frames + [Frame(hook, Some(item), false, false, false, item.timeout)];
      turn := Called(turn);
    }

    /** callback(), for a plugin the transaction's notes say to skip. */
    method Skip(hook: Hook)
      requires Valid() && Waiting() && Answers(Cont) && !disconnected && currentHook.None?
      requires hook == (if turn.AtMain? then Main else DenyHook)
      modifies this
      ensures Valid() && !disconnected && WentOn(Behind(old(turn)), turn)
      decreases 0, |hooksToRun|, 6
    {
      var k := |frames| - 1;
      frames := frames[k := frames[k].(timer := false, calledOnce := true)];
      GoOn(hook);
    }

    /** What an answer of `cont` leads to. */
    method GoOn(hook: Hook)
      requires Between() && Open(turn) && Answered(hook) && AnswerIs(turn, Cont)
      modifies this
      ensures Valid() && !disconnected && WentOn(Behind(old(turn)), turn)
      decreases 0, |hooksToRun|, 5
    {
      AnswerCounts(turn, Cont);
      turn := Behind(turn);
      if |hooksToRun| != 0 {
        RunNextHook(hook);
      } else {
        EndCounts(turn);
        Respond(hook, Cont);
      }
    }

    /** callback(), at the end of a queue. */
    method AtEnd(hook: Hook)
      requires Valid() && Starting(hook) && |hooksToRun| == 0 && !disconnected
      modifies this
      ensures Valid() && !disconnected && WentOn(old(turn), turn)
      decreases 0, |hooksToRun|, 3
    {
      EndCounts(turn);
      frames := frames + [Frame(hook, None, true, false, false, false)];
      Respond(hook, Cont);
    }

    /** The callback of closure k. Only the newest closure's first call changes anything but its own flags. */
    method Callback(k: nat, retval: Option<Ret>)
      requires Valid() && Settled() && !turn.Overtaken? && k < |frames|
      requires Live(k) ==> Answers(Normalised(retval))
      modifies this
      ensures Valid() && disconnected == old(disconnected)
      ensures if old(Live(k)) then Moved(old(turn), turn)
              else turn == old(turn) && responses == old(responses) && hooksToRun == old(hooksToRun)
    {
      var counts := Enter(k);
      if counts {
        Accept(frames[k].hook, Normalised(retval));
      }
    }

    /** The flags of closure k decide whether its answer counts. */
    method Enter(k: nat) returns (counts: bool)
      requires Valid() && Settled() && !turn.Overtaken? && k < |frames|
      modifies this`frames, this`currentHook
      ensures |frames| == old(|frames|) && counts == old(Live(k))
      ensures counts ==> Between() && Answered(frames[k].hook)
      ensures !counts ==> Valid()
    {
      hide Outcome, DenyVerdict;
      currentHook := None;
      var f := frames[k].(timer := false);
      counts := !f.cancelled && !disconnected && !f.calledOnce;
      frames := frames[k := if counts then f.(calledOnce := true) else f];
    }

    /** The rest of the callback, once the answer counts. */
    method Accept(hook: Hook, retval: Ret)
      requires Between() && Open(turn) && Answered(hook) && AnswerIs(turn, retval)
      modifies this
      ensures Valid() && !disconnected && Moved(old(turn), turn)
    {
      if retval == Cont {
        GoOn(hook);
      } else if IsDeny(retval) && !(hook == Main && isInit) {
        AnswerCounts(turn, retval);
        denyRespond := Some(if hook == Main then Report(retval) else Itself);
        RunDenyHooks();
      } else {
        AnswerCounts(turn, retval);
        hooksToRun, shared := [], false;
        Respond(hook, retval);
      }
    }

    /** run_hooks('deny'): the rest of the queue under way is saved, and the deny plugins are asked. A
        rejection by one of them is treated like any other, and so the hook's own rest is forgotten. */
    method RunDenyHooks()
      requires Between() && Open(turn) && Waiting()
      requires turn.AtMain? ==> Queue(turn.i + 1) && !isInit && IsDeny(answers.main[turn.i])
                                && denyRespond == Some(Report(answers.main[turn.i]))
      requires !turn.AtMain? ==> Expected().Never? && denyRespond == Some(Itself)
      modifies this
      ensures Valid() && !disconnected
      ensures if old(turn).AtMain? then (turn.AtDeny? && turn.i == old(turn).i && savedHooksToRun == old(hooksToRun))
              || turn.Done?
              else turn.AtLost? || turn.Stuck?
    {
      hide Outcome, DenyVerdict;
      savedHooksToRun, shared := hooksToRun, false;
      hooksToRun := denyItems;
      turn := if turn.AtMain? then NextDeny(turn.i, 0) else NextLost;
      RunNextHook(DenyHook);
    }

    /** object[respond_method](retval), on a hook that has been decided. */
    method Respond(hook: Hook, retval: Ret)
      requires Between() && hooksToRun == [] && Decided(hook, retval)
      modifies this
      ensures Valid() && !disconnected
      ensures hook == Main || retval != Ok ==> if old(Lost(hook)) then turn.Stuck? else turn.Done?
      ensures hook == DenyHook && retval == Ok ==> Overridden(old(turn), turn)
      decreases if retval == Ok then 1 else 0, 0, 2
    {
      if hook == Main {
        responses := responses + [retval];
        turn := Done;
      } else {
        DenyRespond(retval);
      }
    }

    /** The function made by get_denyfn. An overridden rejection resumes the saved queue, or ends the hook when
        there is none; any other is reported. The closure of a rejection by a deny plugin reports to itself. */
    method DenyRespond(denyRetval: Ret)
      requires Between() && hooksToRun == [] && Decided(DenyHook, denyRetval)
      modifies this
      ensures Valid() && !disconnected
      ensures denyRetval == Ok ==> Overridden(old(turn), turn)
      ensures denyRetval != Ok ==> if old(denyRespond) == Some(Itself) then turn.Stuck?
                                   else turn.Done? && responses == [old(denyRespond).value.retval]
      decreases if denyRetval == Ok then 1 else 0, 0, 1
    {
      if denyRetval == Ok && |savedHooksToRun| > 0 {
        Resume();
        return;
      }
      if denyRetval != Ok {
        savedHooksToRun := [];
      }
      if denyRespond == Some(Itself) {
        turn := Stuck;
      } else {
        VerdictCounts(turn.i);
        responses := responses + [if denyRetval == Ok then Cont else denyRespond.value.retval];
        turn := Done;
      }
    }

    /** The rest of the queue runs on, after an override. */
    method Resume()
      requires Between() && |savedHooksToRun| > 0 && Decided(DenyHook, Ok)
      modifies this
      ensures Valid() && !disconnected && Overridden(old(turn), turn)
      decreases 1, 0, 0
    {
      hide Outcome, DenyVerdict;
      hooksToRun, shared := savedHooksToRun, true;
      if denyRespond == Some(Itself) {
        turn := NextLost;
        RunNextHook(DenyHook);
      } else {
        VerdictCounts(turn.i);
        turn := NextMain(turn.i + 1);
        RunNextHook(Main);
      }
    }

    /** The plugin timer of closure k fires. */
    method TimeoutFires(k: nat)
      requires Valid() && Settled() && !turn.Overtaken? && k < |frames| && frames[k].timer
      requires Live(k) ==> Answers(DenySoft)
      modifies this
      ensures Valid() && disconnected == old(disconnected)
      ensures if old(Live(k)) then Moved(old(turn), turn) else turn == old(turn) && responses == old(responses)
    {
      MarkTimedOut(k);
      Callback(k, Some(DenySoft));
    }

    method MarkTimedOut(k: nat)
      requires Valid() && k < |frames|
      modifies this`frames
      ensures Valid() && |frames| == old(|frames|)
    {
      hide Outcome, DenyVerdict;
      frames := frames[k := frames[k].(timedOut := true)];
    }

    /** run_hooks, for a required hook whose plugins are `queue`: the plugin at work is cancelled and its queue
        replaced. A late call of an older closure makes the code forget who is at work; then nobody is cancelled,
        and the plugin awaited will go on in the wrong queue. */
    method RequiredHookStarts(queue: seq<Item>)
      requires Valid() && Settled()
      modifies this
      ensures Valid() && Settled() && responses == old(responses) && disconnected == old(disconnected)
      ensures hooksToRun == queue
      ensures turn == if old(currentHook).Some? then Halted else if old(Waiting()) then Overtaken else old(turn)
    {
      if currentHook.Some? {
        var k := currentHook.value;
        frames := frames[k := frames[k].(timer := false, cancelled := true)];
        turn := Halted;
      } else if Waiting() {
        turn := Overtaken;
      }
      hooksToRun, shared := queue, false;
    }

    method ClientGone()
      requires Valid() && Settled()
      modifies this
      ensures Valid() && Settled() && responses == old(responses) && turn == old(turn) && disconnected
    {
      disconnected := true;
    }

    ghost predicate Undisturbed()
      reads this
    {
      !disconnected && !turn.Halted? && !turn.Overtaken?
    }

    /** One event. An answer that counts brings the end nearer, unless the run is lost already. An overtaken run
        is followed no further. */
    method Happen(e: Event) returns (counts: bool)
      requires Valid() && Settled()
      modifies this
      ensures Valid() && Settled()
      ensures Fuel(turn) + (if counts then 1 else 0) <= Fuel(old(turn))
      ensures counts <==> old(Asking()) && ((e.Reply? && old(Live(e.k))) || (e.Timer? && old(FiresLive(e.k))))
      ensures !counts && old(Asking()) && !e.Required? ==> turn == old(turn)
      ensures old(Undisturbed()) && !e.Required? && !e.Leaves? ==> Undisturbed()
    {
      counts := false;
      match e {
        case Reply(k, retval) => if k < |frames| && !turn.Overtaken? { counts := Replies(k, retval); }
        case Timer(k) => if k < |frames| && !turn.Overtaken? { counts := Fires(k); }
        case Required(queue) => RequiredHookStarts(queue);
        case Leaves => ClientGone();
      }
    }

    /** The timer of the closure awaited fires, and that is the answer foreseen. */
    predicate FiresLive(k: nat)
      requires Valid()
      reads this
    {
      Live(k) && frames[k].timer && Answers(DenySoft)
    }

    /** The plugin of closure k calls back; the one awaited gives the answer foreseen. */
    method Replies(k: nat, retval: Option<Ret>) returns (counts: bool)
      requires Valid() && Settled() && !turn.Overtaken? && k < |frames|
      modifies this
      ensures Valid() && Settled()
      ensures Fuel(turn) + (if counts then 1 else 0) <= Fuel(old(turn))
      ensures counts == old(Live(k) && Asking()) && (!counts && old(Asking()) ==> turn == old(turn))
      ensures old(Undisturbed()) ==> Undisturbed()
    {
      counts := Live(k) && Asking();
      var answer := if Live(k) then Foreseen(retval) else retval;
      ghost var before := turn;
      Callback(k, answer);
      Spent(before, turn);
    }

    method Fires(k: nat) returns (counts: bool)
      requires Valid() && Settled() && !turn.Overtaken? && k < |frames|
      modifies this
      ensures Valid() && Settled()
      ensures Fuel(turn) + (if counts then 1 else 0) <= Fuel(old(turn))
      ensures counts == old(FiresLive(k) && Asking()) && (!counts && old(Asking()) ==> turn == old(turn))
      ensures old(Undisturbed()) ==> Undisturbed()
    {
      counts := false;
      if frames[k].timer && (!Live(k) || Answers(DenySoft)) {
        counts := Live(k) && Asking();
        ghost var before := turn;
        TimeoutFires(k);
        Spent(before, turn);
      }
    }

    function Foreseen(retval: Option<Ret>): Option<Ret>
      requires Valid()
      reads this
    {
      match turn
      case AtMain(i) => Some(answers.main[i])
      case AtDeny(i, j) => Some(answers.denials[i][j])
      case _ => retval
    }

    lemma Spent(t: Turn, t': Turn)
      requires Wf() && Open(t) && Open(t')
      ensures Moved(t, t') ==> Fuel(t') + (if t.AtLost? then 0 else 1) <= Fuel(t)
    {
      hide Outcome, DenyVerdict;
      if Moved(t, t') && !t.AtLost? {
        AsksGrow(0, |items| - t.i - 1, |denyItems|);
        if t'.AtMain? || t'.AtDeny? {
          AsksGrow(|items| - t'.i, |items| - t.i, |denyItems|);
        }
      }
    }
  }

  // ----- whole runs -----

  lemma {:induction false} AsksGrow(a: nat, b: nat, m: nat)
    requires a <= b
    ensures Asks(a, m) <= Asks(b, m) && (a < b ==> Asks(a, m) + m + 1 <= Asks(b, m))
    decreases b
  {
    if a < b {
      AsksGrow(a, b - 1, m);
    }
  }

  /** What can befall a run: some closure's callback is called or its timer fires, a required hook starts, the
      client goes. */
  datatype Event = Reply(k: nat, retval: Option<Ret>) | Timer(k: nat) | Required(queue: seq<Item>) | Leaves

  predicate Undisturbed(events: seq<Event>) {
    forall e :: e in events ==> !e.Required? && !e.Leaves?
  }

  /** Every sequence of events, any of which may be a second, a late or a cancelled call. `counted` is how many
      were the answer of the plugin awaited, `idle` how many found no answer awaited that could decide anything;
      the others leave the run where it was. No more count than there are plugins to ask. Unless a required hook
      or the client disturbs the run, the responder has run exactly when no deny plugin has rejected, as soon as
      no deciding answer is awaited; and that is so once `counted` and `idle` together reach what plugins may be
      asked, as they do in any run long enough in which every event answers the plugin awaited, if one is. */
  method Play(run: HookRun, events: seq<Event>) returns (counted: nat, idle: nat)
    requires run.Valid() && run.Settled()
    modifies run
    ensures run.Valid() && run.Settled()
    ensures counted + run.Fuel(run.turn) <= old(run.Fuel(run.turn))
    ensures old(run.Undisturbed()) && Undisturbed(events) ==>
              && run.Undisturbed()
              && (counted + idle >= old(run.Fuel(run.turn)) ==> !run.Asking())
              && (!run.Asking() ==> (run.Expected().Never? <==> run.responses == []))
  {
    counted, idle := 0, 0;
    var n := 0;
    while n < |events|
      invariant n <= |events| && run.Valid() && run.Settled()
      invariant counted + run.Fuel(run.turn) <= old(run.Fuel(run.turn))
      invariant run.Fuel(run.turn) <= 0 || counted + idle + run.Fuel(run.turn) <= old(run.Fuel(run.turn))
      invariant old(run.Undisturbed()) && Undisturbed(events[..n]) ==> run.Undisturbed()
    {
      assert events[n] in events[..n + 1];
      assert events[..n] <= events[..n + 1];
      var asking := run.Asking();
      var counts := run.Happen(events[n]);
      counted := counted + if counts then 1 else 0;
      idle := idle + if asking then 0 else 1;
      n := n + 1;
    }
    assert events[..n] == events;
    FuelWhileAsking(run);
  }

  /** A run in which the plugin awaited always answers ends, after no more answers than there are plugins to ask;
      then the responder has run exactly when no deny plugin has rejected. */
  method PlayOut(run: HookRun) returns (answers: nat)
    requires run.Valid() && run.Settled() && run.Undisturbed()
    modifies run
    ensures run.Valid() && run.Settled() && run.Undisturbed() && !run.Asking()
    ensures answers <= old(run.Fuel(run.turn))
    ensures run.Expected().Never? <==> run.responses == []
  {
    answers := 0;
    FuelWhileAsking(run);
    while run.Asking()
      invariant run.Valid() && run.Settled() && run.Undisturbed()
      invariant 0 <= run.Fuel(run.turn) && answers + run.Fuel(run.turn) <= old(run.Fuel(run.turn))
      decreases run.Fuel(run.turn)
    {
      var counts := run.Happen(Reply(|run.frames| - 1, None));
      answers := answers + 1;
      FuelWhileAsking(run);
    }
  }

  /** As long as an answer may decide the hook, plugins are left to ask. */
  lemma FuelWhileAsking(run: HookRun)
    requires run.Valid() && run.Settled()
    ensures run.Asking() <==> run.Fuel(run.turn) > 0
    ensures run.Fuel(run.turn) >= 0
  {
    if run.turn.AtMain? || run.turn.AtDeny? {
      AsksGrow(0, |run.items| - run.turn.i, |run.denyItems|);
      AsksGrow(0, |run.items| - run.turn.i - 1, |run.denyItems|);
    }
  }

  /** The main result, in every state the events can reach: the responder has been called at most once, with
      the value of the specification, and not at all where a deny plugin has rejected a rejection; until
      then exactly the newest closure is awaited, unless a required hook has started or the client has gone. */
  lemma RespondsOnceWithOutcome(run: HookRun)
    requires run.Valid() && run.Settled()
    ensures run.responses == [] || (run.Expected().Responds? && run.responses == [run.Expected().value])
    ensures run.turn.Done? <==> run.responses != []
    ensures run.turn.AtLost? || run.turn.Stuck? ==> run.Expected().Never?
    ensures !run.turn.Overtaken? ==>
              forall k :: 0 <= k < |run.frames| && !run.Live(k) && !run.disconnected ==>
                run.frames[k].calledOnce || run.frames[k].cancelled
  {
  }

  // ----- registration and order -----

  datatype Entry = Entry(plugin: string, methodName: string, priority: int, order: nat)

  /** register_hook's reading of its priority argument; parseInt may give NaN, modelled as None. */
  function Clamped(priority: Option<int>): int {
    if priority.None? then 0
    else if priority.value > 100 then 100
    else if priority.value < -100 then -100
    else priority.value
  }

  /** The comparison load_plugins sorts with. */
  predicate Before(a: Entry, b: Entry) {
    a.priority < b.priority || (a.priority == b.priority && a.order < b.order)
  }

  predicate Ordered(s: seq<Entry>) {
    forall i, j :: 0 <= i < j < |s| ==> Before(s[i], s[j])
  }

  predicate DistinctOrders(s: seq<Entry>) {
    forall i, j :: 0 <= i < j < |s| ==> s[i].order != s[j].order
  }

  function Insert(e: Entry, s: seq<Entry>): (r: seq<Entry>)
    ensures multiset(r) == multiset{e} + multiset(s)
  {
    if s == [] then [e]
    else if Before(e, s[0]) then [e] + s
    else assert s == [s[0]] + s[1..]; [s[0]] + Insert(e, s[1..])
  }

  /** Array.sort with that comparison. Which algorithm sorts does not matter: see OrderIsUnique. */
  function Sorted(s: seq<Entry>): (r: seq<Entry>)
    ensures multiset(r) == multiset(s)
  {
    if s == [] then []
    else assert s == [s[0]] + s[1..]; Insert(s[0], Sorted(s[1..]))
  }

  lemma {:induction false} InsertOrdered(e: Entry, s: seq<Entry>)
    requires Ordered(s) && forall x :: x in s ==> x.order != e.order
    ensures Ordered(Insert(e, s))
  {
    if s != [] && !Before(e, s[0]) {
      var rest := s[1..];
      InsertOrdered(e, rest);
      var r := Insert(e, rest);
      forall k | 0 <= k < |r|
        ensures Before(s[0], r[k])
      {
        assert r[k] in multiset(r);
        assert r[k] == e || r[k] in rest;
      }
    }
  }

  /** Sorting puts the plugins in (priority, registration) order. */
  lemma {:induction false} SortedIsOrdered(s: seq<Entry>)
    requires DistinctOrders(s)
    ensures Ordered(Sorted(s))
  {
    if s != [] {
      SortedIsOrdered(s[1..]);
      forall x | x in Sorted(s[1..])
        ensures x.order != s[0].order
      {
        assert x in multiset(Sorted(s[1..]));
        assert x in s[1..];
      }
      InsertOrdered(s[0], Sorted(s[1..]));
    }
  }

  /** There is only one such order, so every correct sort gives the same queue. */
  lemma {:induction false} OrderIsUnique(a: seq<Entry>, b: seq<Entry>)
    requires Ordered(a) && Ordered(b) && multiset(a) == multiset(b)
    ensures a == b
  {
    if a == [] {
      assert |multiset(b)| == 0;
    } else {
      assert |multiset(a)| == |multiset(b)|;
      SameHead(a, b);
      DropHead(a);
      DropHead(b);
      OrderIsUnique(a[1..], b[1..]);
    }
  }

  lemma SameHead(a: seq<Entry>, b: seq<Entry>)
    requires a != [] && b != [] && Ordered(a) && Ordered(b) && multiset(a) == multiset(b)
    ensures a[0] == b[0]
  {
    assert a[0] in multiset(b) && b[0] in multiset(a);
  }

  lemma DropHead(a: seq<Entry>)
    requires a != []
    ensures multiset(a[1..]) == multiset(a) - multiset{a[0]}
  {
    assert a == [a[0]] + a[1..];
  }

  class Registry {
    var registeredHooks: map<string, seq<Entry>>
    var order: nat   // the module's counter

    ghost predicate Valid()
      reads this
    {
      forall h :: h in registeredHooks ==>
        DistinctOrders(registeredHooks[h])
        && forall i :: 0 <= i < |registeredHooks[h]| ==> registeredHooks[h][i].order < order
    }

    constructor ()
      ensures Valid() && registeredHooks == map[]
    {
      registeredHooks, order := map[], 0;
    }

    /** register_hook. */
    method RegisterHook(hook: string, plugin: string, methodName: string, priority: Option<int>)
      requires Valid()
      modifies this
      ensures Valid() && order == old(order) + 1
      ensures var list := if hook in old(registeredHooks) then old(registeredHooks)[hook] else [];
              var entry := Entry(plugin, methodName, Clamped(priority), old(order));
              registeredHooks == old(registeredHooks)[hook := list + [entry]]
    {
      if hook !in registeredHooks {
        registeredHooks := registeredHooks[hook := []];
      }
      var entry := Entry(plugin, methodName, Clamped(priority), order);
      registeredHooks := registeredHooks[hook := registeredHooks[hook] + [entry]];
      order := order + 1;
    }

    /** The sorting at the end of load_plugins. */
    method SortHooks()
      requires Valid()
      modifies this
      ensures Valid() && registeredHooks.Keys == old(registeredHooks).Keys && order == old(order)
      ensures forall h :: h in registeredHooks ==>
                Ordered(registeredHooks[h]) && multiset(registeredHooks[h]) == multiset(old(registeredHooks)[h])
    {
      forall h | h in registeredHooks
        ensures Ordered(Sorted(registeredHooks[h]))
        ensures forall i :: 0 <= i < |Sorted(registeredHooks[h])| ==> Sorted(registeredHooks[h])[i].order < order
        ensures DistinctOrders(Sorted(registeredHooks[h]))
      {
        SortedKeepsOrders(registeredHooks[h], order);
      }
      registeredHooks := map h | h in registeredHooks :: Sorted(registeredHooks[h]);
    }
  }

  lemma SortedKeepsOrders(s: seq<Entry>, bound: nat)
    requires DistinctOrders(s) && forall i :: 0 <= i < |s| ==> s[i].order < bound
    ensures Ordered(Sorted(s)) && DistinctOrders(Sorted(s))
    ensures forall i :: 0 <= i < |Sorted(s)| ==> Sorted(s)[i].order < bound
  {
    SortedIsOrdered(s);
    var r := Sorted(s);
    forall i | 0 <= i < |r|
      ensures r[i] in s
    {
      assert r[i] in multiset(r);
    }
    PermutationKeepsDistinct(s, r);
  }

  lemma PermutationKeepsDistinct(s: seq<Entry>, r: seq<Entry>)
    requires DistinctOrders(s) && multiset(s) == multiset(r) && Ordered(r)
    ensures DistinctOrders(r)
  {
    forall i, j | 0 <= i < j < |r|
      ensures r[i].order != r[j].order
    {
      assert r[i] in multiset(s) && r[j] in multiset(s);
      var a :| 0 <= a < |s| && s[a] == r[i];
      var b :| 0 <= b < |s| && s[b] == r[j];
      assert Before(r[i], r[j]);
    }
  }
}
