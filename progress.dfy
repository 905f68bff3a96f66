/** The progress indicator drawn above the current step: one marker per step,
    a badge inside it, and a connector between consecutive markers. */
module Progress {

  /** How a step's marker is drawn: filled with a check mark, outlined as the
      active step, or muted as a step still to come. */
  datatype Marker = Done | Active | Upcoming

  /** What the round badge shows: a check mark, or the step's 1-based number. */
  datatype Badge = Check | Numeral(n: nat)

  /** The marker of the step at `index` while `current` is shown: steps
      before the current one are done, the current one is active, and the
      steps after it are still to come. */
  function MarkerOf(index: nat, current: nat): (m: Marker)
    ensures m == Done <==> index < current
    ensures m == Active <==> index == current
  {
    if index < current then Done
    else if index == current then Active
    else Upcoming
  }

  /** The badge of the step at `index`: the check mark exactly on done steps,
      the step's 1-based position everywhere else. */
  function BadgeOf(index: nat, current: nat): (b: Badge)
    ensures b == Check <==> MarkerOf(index, current) == Done
    ensures b != Check ==> b == Numeral(index + 1)
  {
    if index < current then Check else Numeral(index + 1)
  }

  /** The step title is drawn in the primary colour up to and including the
      current step. */
  predicate Highlighted(index: nat, current: nat) {
    index <= current
  }

  /** The markers of all steps, in step order (`steps.map`). While a step of
      the list is shown, exactly `current` steps carry a check mark and
      exactly one step is drawn as active. */
  function Indicator(steps: seq<string>, current: nat): (ms: seq<Marker>)
    ensures |ms| == |steps|
    ensures Count(ms, Done) == if current < |steps| then current else |steps|
    ensures Count(ms, Active) == if current < |steps| then 1 else 0
  {
    var ms := seq(|steps|, i requires 0 <= i < |steps| => MarkerOf(i, current));
    CountPrefix(ms, current, |ms|);
    assert ms[..|ms|] == ms;
    ms
  }

  /** The connectors between consecutive markers (one fewer than the steps):
      connector `i` is filled once step `i` is done. */
  function Connectors(steps: seq<string>, current: nat): (cs: seq<bool>)
    ensures |steps| > 0 ==> |cs| == |steps| - 1
    ensures forall i :: 0 <= i < |cs| ==> (cs[i] <==> MarkerOf(i, current) == Done)
  {
    if |steps| == 0 then []
    else seq(|steps| - 1, i requires 0 <= i < |steps| - 1 => i < current)
  }

  /** Number of occurrences of `m` in `ms`. */
  function Count(ms: seq<Marker>, m: Marker): nat
    decreases |ms|
  {
    if ms == [] then 0
    else Count(ms[..|ms| - 1], m) + (if ms[|ms| - 1] == m then 1 else 0)
  }

  /** A title is highlighted exactly when its marker is done or active. */
  lemma HighlightedIsReached(index: nat, current: nat)
    ensures Highlighted(index, current) <==> MarkerOf(index, current) != Upcoming
  {
  }

  /** On a prefix of `k` markers of a classification by `current`, the done
      markers number `min(current, k)` and there is one active marker exactly
      when the current step lies in the prefix. */
  lemma {:induction false} CountPrefix(ms: seq<Marker>, current: nat, k: nat)
    requires forall i :: 0 <= i < |ms| ==> ms[i] == MarkerOf(i, current)
    requires k <= |ms|
    ensures Count(ms[..k], Done) == if current < k then current else k
    ensures Count(ms[..k], Active) == if current < k then 1 else 0
  {
    if k > 0 {
      CountPrefix(ms, current, k - 1);
      assert ms[..k][..k - 1] == ms[..k - 1];
      assert ms[..k][k - 1] == MarkerOf(k - 1, current);
    }
  }
}
