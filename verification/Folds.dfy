/** Runs of a step function over a list of inputs. */
module Folds {

  ghost function Fold<S, T>(step: (S, T) -> S, init: S, inputs: seq<T>): S
  {
    if inputs == [] then init else step(Fold(step, init, inputs[..|inputs| - 1]), inputs[|inputs| - 1])
  }

  lemma FoldNext<S, T>(step: (S, T) -> S, init: S, front: seq<T>, last: T)
    ensures Fold(step, init, front + [last]) == step(Fold(step, init, front), last)
  {
    assert (front + [last])[..|front|] == front;
  }

  lemma FoldOne<S, T>(step: (S, T) -> S, init: S, input: T)
    ensures Fold(step, init, [input]) == step(init, input)
  {
    FoldNext(step, init, [], input);
    assert [] + [input] == [input];
  }

  lemma {:induction false} FoldConcat<S, T>(step: (S, T) -> S, init: S, front: seq<T>, back: seq<T>)
    ensures Fold(step, init, front + back) == Fold(step, Fold(step, init, front), back)
  {
    if back == [] {
      assert front + back == front;
    } else {
      var n := |back| - 1;
      FoldConcat(step, init, front, back[..n]);
      FoldNext(step, init, front + back[..n], back[n]);
      assert front + back[..n] + [back[n]] == front + back;
    }
  }

  /** What one step keeps, a whole run keeps. */
  lemma {:induction false} FoldKeeps<S(!new), T(!new)>(step: (S, T) -> S, init: S, inputs: seq<T>,
                                                       inv: (S, seq<T>) -> bool)
    requires inv(init, [])
    requires forall s, front, last :: inv(s, front) ==> inv(step(s, last), front + [last])
    ensures inv(Fold(step, init, inputs), inputs)
  {
    if inputs == [] {
    } else {
      var front, last := inputs[..|inputs| - 1], inputs[|inputs| - 1];
      FoldKeeps(step, init, front, inv);
      assert front + [last] == inputs;
    }
  }

  /** Step `n` of the run was taken as `event` says: from that state, with that input. */
  ghost predicate HappenedAt<S, T>(step: (S, T) -> S, init: S, inputs: seq<T>, event: (S, T) -> bool, n: nat)
  {
    n < |inputs| && event(Fold(step, init, inputs[..n]), inputs[n])
  }

  ghost predicate Happened<S, T>(step: (S, T) -> S, init: S, inputs: seq<T>, event: (S, T) -> bool)
  {
    exists n :: HappenedAt(step, init, inputs, event, n)
  }

  lemma HappenedBefore<S, T>(step: (S, T) -> S, init: S, inputs: seq<T>, event: (S, T) -> bool, m: nat, n: nat)
    requires n < m <= |inputs|
    ensures HappenedAt(step, init, inputs[..m], event, n) <==> HappenedAt(step, init, inputs, event, n)
  {
    assert inputs[..m][..n] == inputs[..n];
  }

  /** Something happened in a run exactly when it happened before the last step or at it. */
  lemma HappenedNext<S, T>(step: (S, T) -> S, init: S, inputs: seq<T>, event: (S, T) -> bool)
    requires inputs != []
    ensures var front, last := inputs[..|inputs| - 1], inputs[|inputs| - 1];
      Happened(step, init, inputs, event) <==>
        Happened(step, init, front, event) || event(Fold(step, init, front), last)
  {
    var m := |inputs| - 1;
    forall n: nat | n < m
      ensures HappenedAt(step, init, inputs[..m], event, n) <==> HappenedAt(step, init, inputs, event, n)
    {
      HappenedBefore(step, init, inputs, event, m, n);
    }
    assert event(Fold(step, init, inputs[..m]), inputs[m]) <==> HappenedAt(step, init, inputs, event, m);
    if Happened(step, init, inputs[..m], event) {
      var n :| HappenedAt(step, init, inputs[..m], event, n);
      assert HappenedAt(step, init, inputs, event, n);
    }
  }
}
