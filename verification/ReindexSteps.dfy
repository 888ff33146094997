/** Sequences of protocol steps taken from a given state, and the behaviours they are. */
module ReindexSteps {
  import opened Prelude
  import opened ReindexProtocol

  /** Each step is enabled where the ones before it lead. */
  predicate Legal(s: State, log: seq<Step>) {
    log == [] || (Legal(s, log[..|log| - 1]) && Enabled(Run(s, log[..|log| - 1]), log[|log| - 1]))
  }

  /** Where the steps lead; a step that is not enabled is passed over. */
  function Run(s: State, log: seq<Step>): State {
    if log == [] then s
    else
      var t, a := Run(s, log[..|log| - 1]), log[|log| - 1];
      if Enabled(t, a) then Do(t, a) else t
  }

  lemma OneMore(s: State, log: seq<Step>, a: Step)
    requires Legal(s, log) && Enabled(Run(s, log), a)
    ensures Legal(s, log + [a]) && Run(s, log + [a]) == Do(Run(s, log), a)
  {
    assert (log + [a])[..|log|] == log;
  }

  lemma {:induction false} Then(s: State, log: seq<Step>, more: seq<Step>)
    requires Legal(s, log) && Legal(Run(s, log), more)
    ensures Legal(s, log + more) && Run(s, log + more) == Run(Run(s, log), more)
    decreases |more|
  {
    if more == [] {
      assert log + more == log;
    } else {
      var init, a := more[..|more| - 1], more[|more| - 1];
      Then(s, log, init);
      OneMore(s, log + init, a);
      assert log + more == log + init + [a];
    }
  }

  lemma One(s: State, a: Step)
    requires Enabled(s, a)
    ensures Legal(s, [a]) && Run(s, [a]) == Do(s, a)
  {
    assert [a] == [] + [a];
    OneMore(s, [], a);
  }

  lemma Two(s: State, a: Step, b: Step)
    requires Enabled(s, a) && Enabled(Do(s, a), b)
    ensures Legal(s, [a, b]) && Run(s, [a, b]) == Do(Do(s, a), b)
  {
    One(s, a);
    OneMore(s, [a], b);
    assert [a, b] == [a] + [b];
  }

  lemma Three(s: State, a: Step, b: Step, c: Step)
    requires Enabled(s, a) && Enabled(Do(s, a), b) && Enabled(Do(Do(s, a), b), c)
    ensures Legal(s, [a, b, c]) && Run(s, [a, b, c]) == Do(Do(Do(s, a), b), c)
  {
    Two(s, a, b);
    OneMore(s, [a, b], c);
    assert [a, b, c] == [a, b] + [c];
  }

  /** The states the steps lead through. */
  function History(s: State, log: seq<Step>): (hist: seq<State>)
    ensures |hist| == |log| + 1 && hist[0] == s && hist[|log|] == Run(s, log)
  {
    if log == [] then [s] else History(s, log[..|log| - 1]) + [Run(s, log)]
  }

  /** Legal steps are a behaviour of the protocol, so every theorem about behaviours covers them. */
  lemma {:induction false} LegalIsBehaviour(s: State, log: seq<Step>)
    requires Legal(s, log)
    ensures Behaviour(History(s, log), log)
  {
    if log != [] {
      var init, last := log[..|log| - 1], |log| - 1;
      LegalIsBehaviour(s, init);
      var hist, before := History(s, log), History(s, init);
      forall k | 0 <= k < |log| ensures NextAt(hist, log, k) {
        if k < last {
          assert NextAt(before, init, k);
          assert hist[k] == before[k] && hist[k + 1] == before[k + 1] && log[k] == init[k];
        } else {
          assert hist[last] == before[last] == Run(s, init);
        }
      }
    }
  }

  /** And each behaviour is the run of its steps from where it starts. */
  lemma {:induction false} BehaviourIsLegal(hist: seq<State>, log: seq<Step>)
    requires Behaviour(hist, log)
    ensures Legal(hist[0], log) && Run(hist[0], log) == hist[|log|]
    decreases |log|
  {
    if log != [] {
      var last := |log| - 1;
      var before, init := hist[..last + 1], log[..last];
      forall k | 0 <= k < |init| ensures NextAt(before, init, k) {
        assert NextAt(hist, log, k);
      }
      BehaviourIsLegal(before, init);
      assert NextAt(hist, log, last);
    }
  }
}
