/**
 The controller driven by a sequence of callbacks, one after the other, as the
 screen's single execution context delivers them. The properties here relate the
 resolution flag to the history of launches and sign-in results.
 */
module SignInTrace {
  import opened SignInTypes
  import opened SignInController

  /** The state after a run, and the commands of each step in delivery order. */
  datatype Trace = Trace(final: State, outputs: seq<seq<Command>>)

  /** Runs the events in order from state `s`. */
  function Run(s: State, es: seq<Event>): (t: Trace)
    ensures |t.outputs| == |es|
    decreases |es|
  {
    if |es| == 0 then Trace(s, [])
    else
      var p := Run(s, es[..|es| - 1]);
      var r := Step(p.final, es[|es| - 1]);
      Trace(r.state, p.outputs + [r.commands])
  }

  /** No event at index `from` or later is the sign-in result. */
  ghost predicate NoSignInResultFrom(es: seq<Event>, from: nat) {
    forall k :: from <= k < |es| ==> !IsSignInResult(es[k])
  }

  /**
   A resolution is outstanding after the run: either one was already pending at the
   start and no sign-in result came, or some step launched one and no sign-in result
   came after it.
   */
  ghost predicate Outstanding(s: State, es: seq<Event>, outputs: seq<seq<Command>>)
    requires |outputs| == |es|
  {
    || (s.isResolving && NoSignInResultFrom(es, 0))
    || exists i :: 0 <= i < |es| && Launches(outputs[i]) && NoSignInResultFrom(es, i + 1)
  }

  /** Running a prefix yields the prefix of the outputs. */
  lemma {:induction false} RunPrefix(s: State, es: seq<Event>, m: nat)
    requires m <= |es|
    ensures Run(s, es[..m]).outputs == Run(s, es).outputs[..m]
    decreases |es|
  {
    if m < |es| {
      var init := es[..|es| - 1];
      assert init[..m] == es[..m];
      RunPrefix(s, init, m);
    } else {
      assert es[..m] == es;
    }
  }

  /** The commands of step `j` are what Step issues in the state reached by the first `j` events. */
  lemma StepOfRun(s: State, es: seq<Event>, j: nat)
    requires j < |es|
    ensures Run(s, es).outputs[j] == Step(Run(s, es[..j]).final, es[j]).commands
  {
    var pre := es[..j + 1];
    assert pre[..j] == es[..j];
    RunPrefix(s, es, j + 1);
  }

  /** One more event: the flag follows the step relation, and earlier outputs are kept. */
  lemma RunLast(s: State, es: seq<Event>)
    requires |es| > 0
    ensures var n := |es| - 1;
      && Run(s, es).outputs[..n] == Run(s, es[..n]).outputs
      && (Run(s, es).final.isResolving <==>
            (Run(s, es[..n]).final.isResolving && !IsSignInResult(es[n]))
            || Launches(Run(s, es).outputs[n]))
  {
  }

  /** A resolution outstanding before the last event stays so unless that event is the sign-in result. */
  lemma OutstandingExtends(s: State, es: seq<Event>, outs: seq<seq<Command>>)
    requires |es| > 0 && |outs| == |es|
    requires Outstanding(s, es[..|es| - 1], outs[..|es| - 1])
    requires !IsSignInResult(es[|es| - 1])
    ensures Outstanding(s, es, outs)
  {
  }

  /** A resolution outstanding after all events was outstanding before the last one, or launched by it. */
  lemma OutstandingShrinks(s: State, es: seq<Event>, outs: seq<seq<Command>>)
    requires |es| > 0 && |outs| == |es|
    requires Outstanding(s, es, outs)
    ensures var n := |es| - 1;
      || (Outstanding(s, es[..n], outs[..n]) && !IsSignInResult(es[n]))
      || Launches(outs[n])
  {
  }

  /**
   The flag is up after any run exactly when a resolution is outstanding: launched
   (or pending at the start) and not yet answered by a sign-in result.
   */
  lemma {:induction false} FlagIffOutstanding(s: State, es: seq<Event>)
    ensures Run(s, es).final.isResolving <==> Outstanding(s, es, Run(s, es).outputs)
    decreases |es|
  {
    if |es| > 0 {
      var n := |es| - 1;
      var outs := Run(s, es).outputs;
      RunLast(s, es);
      FlagIffOutstanding(s, es[..n]);
      if Run(s, es).final.isResolving && !Launches(outs[n]) {
        OutstandingExtends(s, es, outs);
      }
      if Run(s, es).final.isResolving && Launches(outs[n]) {
        assert NoSignInResultFrom(es, n + 1);
      }
      if Outstanding(s, es, outs) {
        OutstandingShrinks(s, es, outs);
      }
    }
  }

  /**
   At most one resolution is in flight: between any two launches there is a
   sign-in result that answered the first.
   */
  lemma NoSecondLaunchBeforeAnswer(s: State, es: seq<Event>, i: nat, j: nat)
    requires i < j < |es|
    requires Launches(Run(s, es).outputs[i]) && Launches(Run(s, es).outputs[j])
    ensures exists k :: i < k < j && IsSignInResult(es[k])
  {
    var pre := es[..j];
    StepOfRun(s, es, j);
    assert !Run(s, pre).final.isResolving;
    FlagIffOutstanding(s, pre);
    RunPrefix(s, es, j);
    assert Launches(Run(s, pre).outputs[i]);
    assert !NoSignInResultFrom(pre, i + 1);
    var k :| i + 1 <= k < |pre| && IsSignInResult(pre[k]);
    assert es[k] == pre[k];
  }

  /** Running one more event appends that event's step. */
  lemma RunSnoc(s: State, es: seq<Event>, e: Event)
    ensures var p := Run(s, es);
      Run(s, es + [e]) == Trace(Step(p.final, e).state, p.outputs + [Step(p.final, e).commands])
  {
  }

  /**
   A recoverable failure resolved successfully: with no resolution pending, the
   screen connects, the failure launches the resolution, and its successful result
   reconnects with the flag down. The start state is any state with the flag down,
   which is `Initial`; it is left generic so the verifier does not unfold `Run` on
   a fully literal argument.
   */
  lemma ResolvedFailureReconnects(s: State, failure: ConnectionResult)
    requires !s.isResolving
    requires failure.hasResolution && !failure.launchThrows
    ensures var t := Run(s, [Started, ConnectionFailed(failure), ActivityResult(RC_SIGN_IN, RESULT_OK)]);
      && t.outputs == [[Connect], [StartResolution(RC_SIGN_IN)], [Connect]]
      && !t.final.isResolving
  {
    var e0, e1, e2 := Started, ConnectionFailed(failure), ActivityResult(RC_SIGN_IN, RESULT_OK);
    var o0, o1, o2 := [Connect], [StartResolution(RC_SIGN_IN)], [Connect];
    assert Run(s, [e0]) == Trace(s, [o0]) by {
      RunSnoc(s, [], e0);
      assert [] + [e0] == [e0];
    }
    assert Run(s, [e0, e1]) == Trace(State(true), [o0, o1]) by {
      RunSnoc(s, [e0], e1);
      assert [e0] + [e1] == [e0, e1];
      assert [o0] + [o1] == [o0, o1];
    }
    assert Run(s, [e0, e1, e2]) == Trace(State(false), [o0, o1, o2]) by {
      RunSnoc(s, [e0, e1], e2);
      assert [e0, e1] + [e2] == [e0, e1, e2];
      assert [o0, o1] + [o2] == [o0, o1, o2];
    }
  }

  /**
   The same run followed by the connection coming up with a profile that has
   neither picture: name and email are set and no image is loaded. As above, the
   start state is `Initial` written generically.
   */
  lemma ResolvedSignInScenario(s: State, failure: ConnectionResult, person: Person, accountName: string)
    requires !s.isResolving
    requires failure.hasResolution && !failure.launchThrows
    requires person.imageUrl.None? && person.coverUrl.None?
    ensures
      var es := [Started, ConnectionFailed(failure), ActivityResult(RC_SIGN_IN, RESULT_OK),
                 Connected(Some(person), accountName)];
      var t := Run(s, es);
      && t.outputs == [[Connect], [StartResolution(RC_SIGN_IN)], [Connect],
                       [SetName(person.displayName), SetEmail(accountName)]]
      && !t.final.isResolving
  {
    var e0, e1 := Started, ConnectionFailed(failure);
    var e2, e3 := ActivityResult(RC_SIGN_IN, RESULT_OK), Connected(Some(person), accountName);
    ResolvedFailureReconnects(s, failure);
    RunSnoc(s, [e0, e1, e2], e3);
    assert [e0, e1, e2] + [e3] == [e0, e1, e2, e3];
    assert ProfileCommands(person, accountName) == [SetName(person.displayName), SetEmail(accountName)];
  }
}
