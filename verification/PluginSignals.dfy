/** What each message of a plugin becomes, and when a dialog may open: the trace of the
    proxy read against the messages and the policy of the request. */
module PluginSignals {
  import opened PluginProxy

  /** The policies in words: none, only a captcha with what comes beside it, or anything. */
  predicate MayOpen(policy: UiPolicy, query: UiQuery) {
    match policy
    case NoUserInteractionPolicy => false
    case ValidationPolicy => (!query.userName && !query.password) || query.captchaImage || query.captchaUrl
    case _ => true
  }

  /** The message that a signal stands for. */
  predicate StandsFor(policy: UiPolicy, s: Signal, m: Message) {
    match s
    case ProcessStarted => false
    case ResultReply => m.ResultMessage?
    case ErrorReply(code) => m == ErrorMessage(code)
    case StoreRequest => m.StoreMessage?
    case UiRequest => m.UiMessage? && MayOpen(policy, m.query)
    case UiForbidden => m.UiMessage? && !MayOpen(policy, m.query)
    case RefreshRequest => m.RefreshedMessage?
    case StateChanged(state) => m == SignalMessage(state)
  }

  /** `messages` are handled, and then either nothing is left or one stops. */
  ghost predicate HandledUpTo(input: seq<Message>, messages: seq<Message>) {
    && messages <= input && (forall m :: m in messages ==> !Stops(m))
    && (|messages| < |input| ==> Stops(input[|messages|]))
  }

  lemma {:induction false} HandledIsUpTo(input: seq<Message>)
    ensures HandledUpTo(input, Handled(input))
    ensures EndsBroken(input) <==> |Handled(input)| < |input| && input[|Handled(input)|].BrokenMessage?
    ensures EndsUnfinished(input) <==> |Handled(input)| < |input| && input[|Handled(input)|].UnfinishedMessage?
    ensures Unread(input) == if EndsUnfinished(input) then input[|Handled(input)| + 1..] else []
  {
    if input != [] && !Stops(input[0]) {
      HandledIsUpTo(input[1..]);
      assert input == [input[0]] + input[1..];
    }
  }

  /** The messages up to the first result or error, if there is one. */
  ghost predicate FirstTerminal(messages: seq<Message>, kept: seq<Message>) {
    && kept <= messages && (|kept| < |messages| ==> kept != [] && IsTerminal(kept[|kept| - 1]))
    && forall i :: 0 <= i < |kept| - 1 ==> !IsTerminal(kept[i])
  }

  lemma {:induction false} KeptIsFirstTerminal(messages: seq<Message>)
    ensures FirstTerminal(messages, UpToTerminal(messages))
  {
    if messages != [] {
      var m, rest := messages[0], messages[1..];
      KeptIsFirstTerminal(rest);
      var kept := UpToTerminal(messages);
      assert messages == [m] + rest;
      assert kept == [m] + if IsTerminal(m) then [] else UpToTerminal(rest);
      if !IsTerminal(m) && UpToTerminal(rest) == [] { assert rest == []; }
    }
  }

  /** One signal for each message, in order. */
  ghost predicate Match(policy: UiPolicy, signals: seq<Signal>, messages: seq<Message>) {
    |signals| == |messages| && forall i :: 0 <= i < |messages| ==> StandsFor(policy, signals[i], messages[i])
  }

  lemma OneSignal(policy: UiPolicy, m: Message)
    requires !Stops(m)
    ensures |SignalFor(policy, m)| == 1 && StandsFor(policy, SignalFor(policy, m)[0], m)
  {
  }

  lemma {:induction false} SignalsMatch(policy: UiPolicy, messages: seq<Message>)
    requires forall m :: m in messages ==> !Stops(m)
    ensures Match(policy, SignalsFor(policy, messages), messages)
  {
    if messages != [] {
      var m, rest := messages[0], messages[1..];
      assert messages == [m] + rest;
      SignalsMatch(policy, rest);
      OneSignal(policy, m);
    }
  }

  /** The messages that a notification passes on. */
  function PassedOn(p: Proxy, input: seq<Message>): seq<Message> {
    if p.isResultObtained then [] else UpToTerminal(Handled(input))
  }

  lemma PassedOnMatch(p: Proxy, input: seq<Message>)
    ensures Match(p.uiPolicy, SignalsFor(p.uiPolicy, PassedOn(p, input)), PassedOn(p, input))
    ensures p.isResultObtained || FirstTerminal(Handled(input), PassedOn(p, input))
    ensures HandledUpTo(input, Handled(input))
  {
    HandledIsUpTo(input);
    KeptIsFirstTerminal(Handled(input));
    var kept := PassedOn(p, input);
    assert forall m :: m in kept ==> m in Handled(input);
    SignalsMatch(p.uiPolicy, kept);
  }

  /** A notification while a result is expected: the messages that are handled give one
      signal each, up to the first result or error; then at most the error of a broken
      blob follows. Once the result is there, only that error is emitted. */
  lemma ReadingMatches(p: Proxy, input: seq<Message>)
    requires p.listening && input != []
    ensures var kept := PassedOn(p, input);
            var emitted := SignalsFor(p.uiPolicy, kept);
            && Read(p, input).signals == p.signals + emitted + ErrorIf(EndsBroken(input))
            && Match(p.uiPolicy, emitted, kept) && HandledUpTo(input, Handled(input))
            && (if p.isResultObtained then kept == [] else FirstTerminal(Handled(input), kept))
  {
    StepAdds(p, Arrives(input));
    PassedOnMatch(p, input);
    assert Emitted(p, input) == SignalsFor(p.uiPolicy, PassedOn(p, input));
  }

  // Dialogs over runs.

  /** No other request is handed over. */
  predicate SameRequest(run: seq<Event>) {
    forall i :: 0 <= i < |run| ==> !(run[i].ProcessCall? && run[i].running)
  }

  lemma PolicyStays(p: Proxy, e: Event)
    requires !(e.ProcessCall? && e.running)
    ensures StepProxy(p, e).uiPolicy == p.uiPolicy && p.signals <= StepProxy(p, e).signals
    ensures p.isResultObtained ==> StepProxy(p, e).isResultObtained
  {
    StepAdds(p, e);
    if e.Arrives? { DrainRecordsResult(p, Handled(e.messages)); }
  }

  lemma NoneOpens(p: Proxy, input: seq<Message>)
    requires p.uiPolicy == NoUserInteractionPolicy
    ensures UiRequest !in SignalsFor(p.uiPolicy, PassedOn(p, input))
  {
    PassedOnMatch(p, input);
    var kept := PassedOn(p, input);
    var emitted := SignalsFor(p.uiPolicy, kept);
    forall i | 0 <= i < |emitted|
      ensures emitted[i] != UiRequest
    {
      assert StandsFor(p.uiPolicy, emitted[i], kept[i]);
    }
  }

  lemma NoDialogInStep(p: Proxy, e: Event)
    requires p.uiPolicy == NoUserInteractionPolicy && !(e.ProcessCall? && e.running)
    ensures p.signals <= StepProxy(p, e).signals && UiRequest !in StepProxy(p, e).signals[|p.signals|..]
  {
    StepAdds(p, e);
    assert StepProxy(p, e).signals[|p.signals|..] == Added(p, e);
    if e.Arrives? {
      NoneOpens(p, e.messages);
      assert Emitted(p, e.messages) == SignalsFor(p.uiPolicy, PassedOn(p, e.messages));
    }
  }

  /** A request that forbids user interaction opens no dialog before the next one, whatever
      the plugin does. */
  lemma {:induction false} NoDialogWithoutInteraction(p: Proxy, run: seq<Event>)
    requires p.uiPolicy == NoUserInteractionPolicy && SameRequest(run)
    ensures p.signals <= RunProxy(p, run).signals && UiRequest !in RunProxy(p, run).signals[|p.signals|..]
    decreases |run|
  {
    if run != [] {
      var q := StepProxy(p, run[0]);
      PolicyStays(p, run[0]);
      NoDialogInStep(p, run[0]);
      NoDialogWithoutInteraction(q, run[1..]);
      var n, m, all := |p.signals|, |q.signals|, RunProxy(p, run).signals;
      assert all[n..] == q.signals[n..] + all[m..];
    }
  }

  lemma {:induction false} PolicyOfRequest(p: Proxy, run: seq<Event>)
    requires SameRequest(run)
    ensures RunProxy(p, run).uiPolicy == p.uiPolicy
    decreases |run|
  {
    if run != [] {
      PolicyStays(p, run[0]);
      PolicyOfRequest(StepProxy(p, run[0]), run[1..]);
    }
  }

  lemma {:induction false} HandledAfter(before: seq<Message>, rest: seq<Message>)
    requires forall m :: m in before ==> !Stops(m)
    ensures Handled(before + rest) == before + Handled(rest)
  {
    var all := before + rest;
    if before == [] {
      assert all == rest;
    } else {
      var m, more := before[0], before[1..];
      assert before == [m] + more && m in before && forall k :: k in more ==> k in before;
      HandledAfter(more, rest);
      assert all[0] == m && all[1..] == more + rest;
      assert Handled(all) == [m] + Handled(all[1..]);
      assert [m] + (more + Handled(rest)) == before + Handled(rest);
    }
  }

  lemma {:induction false} UpToTerminalAfter(before: seq<Message>, rest: seq<Message>)
    requires forall m :: m in before ==> !IsTerminal(m)
    ensures UpToTerminal(before + rest) == before + UpToTerminal(rest)
  {
    var all := before + rest;
    if before == [] {
      assert all == rest;
    } else {
      var m, more := before[0], before[1..];
      assert before == [m] + more && m in before && forall k :: k in more ==> k in before;
      UpToTerminalAfter(more, rest);
      assert all[0] == m && all[1..] == more + rest;
      assert UpToTerminal(all) == [m] + UpToTerminal(all[1..]);
      assert [m] + (more + UpToTerminal(rest)) == before + UpToTerminal(rest);
    }
  }

  lemma DialogAt(p: Proxy, input: seq<Message>, before: seq<Message>)
    requires Match(p.uiPolicy, SignalsFor(p.uiPolicy, PassedOn(p, input)), PassedOn(p, input))
    requires |PassedOn(p, input)| > |before| && PassedOn(p, input)[|before|].UiMessage?
    ensures var emitted, k := SignalsFor(p.uiPolicy, PassedOn(p, input)), |before|;
            && |emitted| > k
            && emitted[k] == if MayOpen(p.uiPolicy, PassedOn(p, input)[k].query) then UiRequest else UiForbidden
  {
    assert StandsFor(p.uiPolicy, SignalsFor(p.uiPolicy, PassedOn(p, input))[|before|], PassedOn(p, input)[|before|]);
  }

  /** A dialog message that arrives while the result of a request is expected, with what
      comes before it in one notification: the policy of that request alone decides
      whether a dialog opens or is refused. */
  lemma PolicyDecidesDialog(p: Proxy, policy: UiPolicy, run: seq<Event>, before: seq<Message>, query: UiQuery,
                            after: seq<Message>)
    requires var q := RunProxy(AfterProcessCall(p, policy), run); q.listening && !q.isResultObtained
    requires SameRequest(run) && forall m :: m in before ==> !Stops(m) && !IsTerminal(m)
    ensures var q := RunProxy(AfterProcessCall(p, policy), run);
            var signals := Read(q, before + [UiMessage(query)] + after).signals;
            && |signals| > |q.signals| + |before|
            && signals[|q.signals| + |before|] == if MayOpen(policy, query) then UiRequest else UiForbidden
  {
    var q := RunProxy(AfterProcessCall(p, policy), run);
    PolicyOfRequest(AfterProcessCall(p, policy), run);
    var dialog, input := [UiMessage(query)] + after, before + [UiMessage(query)] + after;
    assert input == before + dialog;
    HandledAfter(before, dialog);
    assert Handled(dialog) == [UiMessage(query)] + Handled(after);
    UpToTerminalAfter(before, Handled(dialog));
    ReadingMatches(q, input);
    DialogAt(q, input, before);
  }

  /** A refused dialog goes back to the plugin, which goes on with the request. */
  lemma RefusedDialogResumes(p: Proxy, query: UiQuery)
    requires p.listening && !p.isResultObtained
    ensures Read(p, [UiMessage(query)]).isProcessing <==> p.isProcessing || !MayOpen(p.uiPolicy, query)
  {
    var one := [UiMessage(query)];
    assert one[0] == UiMessage(query) && one[1..] == [];
    assert Handled(one) == [one[0]] + Handled(one[1..]) == one && Unhandled(one) == Unhandled(one[1..]) == [];
    assert Drain(p, one) == Drain(Handle(p, one[0]), one[1..]) == Handle(p, one[0]);
  }

  // Exits.

  /** Nothing in the run ends the processing of a request: no result, error or exit, and no
      notification without data. */
  predicate GoesOn(run: seq<Event>) {
    forall i :: 0 <= i < |run| ==> !run[i].Exit? && (run[i].Arrives? ==>
      run[i].messages != [] && !SomeTerminal(Handled(run[i].messages)))
  }

  lemma {:induction false} DrainGoesOn(p: Proxy, messages: seq<Message>)
    requires p.isProcessing && forall m :: m in messages ==> !IsTerminal(m)
    ensures Drain(p, messages).isProcessing
    decreases |messages|
  {
    if messages != [] {
      assert messages[0] in messages && forall m :: m in messages[1..] ==> m in messages;
      DrainGoesOn(Handle(p, messages[0]), messages[1..]);
    }
  }

  lemma {:induction false} RequestGoesOn(p: Proxy, run: seq<Event>)
    requires p.isProcessing && GoesOn(run)
    ensures RunProxy(p, run).isProcessing
    decreases |run|
  {
    if run != [] {
      if run[0].Arrives? {
        var handled := Handled(run[0].messages);
        forall m | m in handled
          ensures !IsTerminal(m)
        {
          var i :| 0 <= i < |handled| && handled[i] == m;
        }
        DrainGoesOn(p, handled);
      }
      RequestGoesOn(StepProxy(p, run[0]), run[1..]);
    }
  }

  /** A process that exits before it has given a result or an error, in whatever manner, is
      reported with an error. */
  lemma ExitBeforeResultIsReported(p: Proxy, policy: UiPolicy, run: seq<Event>, crashed: bool)
    requires GoesOn(run)
    ensures var q := RunProxy(AfterProcessCall(p, policy), run);
            StepProxy(q, Exit(crashed)).signals == q.signals + [ErrorReply(INTERNAL_SERVER)]
  {
    RequestGoesOn(AfterProcessCall(p, policy), run);
  }

  /** An answer to a dialog makes an exit count again, even after the result. */
  lemma ExitAfterDialogIsReported(p: Proxy, crashed: bool)
    ensures var q := StepProxy(p, DialogAnswered(true));
            StepProxy(q, Exit(crashed)).signals == p.signals + [ErrorReply(INTERNAL_SERVER)]
  {
  }

  /** An exit, or a notification without data, is reported once. */
  lemma ReportedOnce(p: Proxy, e: Event)
    requires e.Exit? || (e == Arrives([]) && p.listening)
    ensures StepProxy(StepProxy(p, e), Exit(false)).signals == StepProxy(p, e).signals
  {
  }

  /** A process that exits without a crash afterwards is not. */
  lemma ExitAfterResultIsQuiet(p: Proxy, m: Message)
    requires IsTerminal(m)
    ensures StepProxy(Handle(p, m), Exit(false)).signals == Handle(p, m).signals
  {
  }
}
