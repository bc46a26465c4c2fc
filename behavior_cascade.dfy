/**
 * The exception cascade over a component's behaviors. When rendering a component fails, every
 * behavior attached to it is told, in attachment order and without exception; a behavior may
 * answer by restarting the response with another page, which does not stop the later
 * behaviors from being told but replaces any earlier restart. With no restart the failure
 * surfaces wrapped in a runtime exception whose cause is the original failure.
 */
module BehaviorCascade {
  import opened Wrappers

  /** A failure: the original exception the model throws, or a runtime exception wrapping one. */
  datatype Failure = ExpectedException | WicketRuntimeException(cause: Failure)

  /** The exception a behavior's hook accepts: the original failure or a wrapper of it. */
  predicate IsExpected(e: Failure)
  {
    e == ExpectedException || (e.WicketRuntimeException? && e.cause == ExpectedException)
  }

  /** What a behavior's `onException` does after its clean-up: return, or restart with a page. */
  datatype Reaction = CleanupOnly | RestartWith(pageId: int)

  /** The model of the labelComponent: one whose `getObject` throws, or a plain string. */
  datatype LabelModel = Exploding | Text(s: string)

  /** The page a request ends on. */
  datatype RenderedPage = StartPage | RedirectedPage(id: int)

  /** The end of a request: a rendered page, or a failure thrown to the caller. */
  datatype Outcome = Rendered(page: RenderedPage) | Thrown(error: Failure)

  /**
   * The restart that takes effect for behaviors reacting in this order: that of the last
   * behavior that restarts, found from the end of the list.
   */
  function LastRestart(bs: seq<Reaction>): (r: Option<int>)
    ensures r.Some? <==> exists i :: 0 <= i < |bs| && bs[i].RestartWith?
  {
    if bs == [] then None
    else if bs[|bs| - 1].RestartWith? then Some(bs[|bs| - 1].pageId)
    else
      var r := LastRestart(bs[..|bs| - 1]);
      assert forall i :: 0 <= i < |bs| - 1 ==> bs[..|bs| - 1][i] == bs[i];
      r
  }

  /**
   * The restart that takes effect is one some behavior asked for, and no behavior after it
   * asked for another.
   */
  lemma {:induction false} LastRestartWins(bs: seq<Reaction>)
    requires LastRestart(bs).Some?
    ensures exists i :: 0 <= i < |bs| && bs[i] == RestartWith(LastRestart(bs).value)
                        && forall j :: i < j < |bs| ==> bs[j] == CleanupOnly
    decreases |bs|
  {
    var n := |bs| - 1;
    if !bs[n].RestartWith? {
      var front := bs[..n];
      LastRestartWins(front);
      var i :| 0 <= i < |front| && front[i] == RestartWith(LastRestart(front).value)
               && forall j :: i < j < |front| ==> front[j] == CleanupOnly;
      assert bs[i] == front[i];
      assert forall j :: i < j < |bs| ==> bs[j] == CleanupOnly by {
        forall j | i < j < |bs|
          ensures bs[j] == CleanupOnly
        {
          if j < n {
            assert bs[j] == front[j];
          }
        }
      }
    }
  }

  /** The outcome of a failed render after the cascade, for behaviors reacting in this order. */
  function CascadeOutcome(bs: seq<Reaction>, raised: Failure): Outcome
  {
    match LastRestart(bs)
    case Some(id) => Rendered(RedirectedPage(id))
    case None => Thrown(WicketRuntimeException(raised))
  }

  /**
   * The label of the start page: its model, its behaviors in attachment order, and the
   * exceptions its behaviors' hooks have been given, in the order they were called (the
   * hooks' `behaviorCalled` flags).
   */
  class Label {
    const model: LabelModel
    var behaviors: seq<Reaction>
    var notified: seq<(nat, Failure)>

    constructor (model: LabelModel)
      ensures this.model == model && behaviors == [] && notified == []
    {
      this.model := model;
      behaviors := [];
      notified := [];
    }

    /** `labelComponent.add(behavior)`. */
    method Add(b: Reaction)
      modifies this
      ensures behaviors == old(behaviors) + [b] && notified == old(notified)
    {
      behaviors := behaviors + [b];
    }

    /**
     * Rendering the labelComponent. With a plain model the start page renders and no hook is called.
     * With the exploding model every behavior's hook is called once, in order, with the
     * original failure; a restart only replaces the pending one; afterwards the pending
     * restart, if any, is the page rendered, and otherwise the wrapped failure is thrown.
     */
    method Render() returns (o: Outcome)
      modifies this
      ensures behaviors == old(behaviors)
      ensures model.Text? ==> o == Rendered(StartPage) && notified == old(notified)
      ensures model.Exploding? ==>
                o == CascadeOutcome(behaviors, ExpectedException)
                && notified == old(notified) + seq(|behaviors|, i => (i, ExpectedException))
                && forall k :: |old(notified)| <= k < |notified| ==> IsExpected(notified[k].1)
    {
      if model.Text? {
        return Rendered(StartPage);
      }
      var raised := ExpectedException;
      var pending: Option<int> := None;
      for i := 0 to |behaviors|
        invariant behaviors == old(behaviors)
        invariant pending == LastRestart(behaviors[..i])
        invariant notified == old(notified) + seq(i, k => (k, raised))
      {
        assert behaviors[..i + 1][..i] == behaviors[..i];
        notified := notified + [(i, raised)];
        if behaviors[i].RestartWith? {
          pending := Some(behaviors[i].pageId);
        }
      }
      assert behaviors[..|behaviors|] == behaviors;
      match pending
      case Some(id) =>
        o := Rendered(RedirectedPage(id));
      case None =>
        o := Thrown(WicketRuntimeException(raised));
    }
  }

  /** `new StartPage(model, behaviors...)`: a label with the model, each behavior added in turn. */
  method NewStartPage(model: LabelModel, bs: seq<Reaction>) returns (labelComponent: Label)
    ensures fresh(labelComponent)
    ensures labelComponent.model == model && labelComponent.behaviors == bs && labelComponent.notified == []
  {
    labelComponent := new Label(model);
    for i := 0 to |bs|
      invariant fresh(labelComponent)
      invariant labelComponent.model == model && labelComponent.behaviors == bs[..i] && labelComponent.notified == []
    {
      labelComponent.Add(bs[i]);
      assert bs[..i + 1] == bs[..i] + [bs[i]];
    }
    assert bs[..|bs|] == bs;
  }

  /** Start a page with the exploding model and these behaviors; which hooks were called, and the outcome. */
  method StartExploding(bs: seq<Reaction>) returns (o: Outcome, called: seq<nat>)
    ensures o == CascadeOutcome(bs, ExpectedException)
    ensures called == seq(|bs|, i => i)
  {
    var labelComponent := NewStartPage(Exploding, bs);
    o := labelComponent.Render();
    // The test reads back each behavior's own `exceptionCalled` flag: collect, in order, the
    // indexes of the behaviors the label notified.
    called := [];
    for k := 0 to |labelComponent.notified|
      invariant called == seq(k, i => i)
    {
      called := called + [labelComponent.notified[k].0];
    }
  }

  /** testDefaultExceptionHandling: no behaviors, the wrapped failure surfaces. */
  method DefaultExceptionHandling() returns (o: Outcome)
    ensures o.Thrown? && o.error.WicketRuntimeException? && o.error.cause == ExpectedException
  {
    var called;
    o, called := StartExploding([]);
  }

  /** testSingleBehaviorWithCleanupOnly */
  method SingleBehaviorWithCleanupOnly() returns (o: Outcome, behaviorCalled: bool)
    ensures o.Thrown? && o.error.WicketRuntimeException? && o.error.cause == ExpectedException
    ensures behaviorCalled
  {
    var called;
    o, called := StartExploding([CleanupOnly]);
    assert called[0] == 0;
    behaviorCalled := 0 in called;
  }

  /** testTwoBehaviorsWithCleanupOnly */
  method TwoBehaviorsWithCleanupOnly() returns (o: Outcome, behaviorCalled: bool, behavior2called: bool)
    ensures o.Thrown? && o.error.WicketRuntimeException? && o.error.cause == ExpectedException
    ensures behaviorCalled && behavior2called
  {
    var called;
    o, called := StartExploding([CleanupOnly, CleanupOnly]);
    assert [CleanupOnly, CleanupOnly][..1] == [CleanupOnly];
    assert called[0] == 0 && called[1] == 1;
    behaviorCalled := 0 in called;
    behavior2called := 1 in called;
  }

  /** testSingleBehaviorWithRedirect */
  method SingleBehaviorWithRedirect() returns (o: Outcome, behaviorCalled: bool)
    ensures o == Rendered(RedirectedPage(1))
    ensures behaviorCalled
  {
    var called;
    o, called := StartExploding([RestartWith(1)]);
    assert called[0] == 0;
    behaviorCalled := 0 in called;
  }

  /** testSecondBehaviorIsCalledEvenWithRedirectInFirst */
  method SecondBehaviorIsCalledEvenWithRedirectInFirst()
    returns (o: Outcome, behaviorCalled: bool, behavior2called: bool)
    ensures o == Rendered(RedirectedPage(1))
    ensures behaviorCalled && behavior2called
  {
    var called;
    o, called := StartExploding([RestartWith(1), CleanupOnly]);
    assert [RestartWith(1), CleanupOnly][..1] == [RestartWith(1)];
    assert called[0] == 0 && called[1] == 1;
    behaviorCalled := 0 in called;
    behavior2called := 1 in called;
  }

  /** testSecondBehaviorRedirectWins */
  method SecondBehaviorRedirectWins() returns (o: Outcome, behaviorCalled: bool, behavior2called: bool)
    ensures o == Rendered(RedirectedPage(2))
    ensures behaviorCalled && behavior2called
  {
    var called;
    o, called := StartExploding([RestartWith(1), RestartWith(2)]);
    assert [RestartWith(1), RestartWith(2)][..1] == [RestartWith(1)];
    assert called[0] == 0 && called[1] == 1;
    behaviorCalled := 0 in called;
    behavior2called := 1 in called;
  }
}
