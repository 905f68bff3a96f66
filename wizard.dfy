/** The `MultiStepForm` controller: its state, the three handlers as
    transitions on that state, and the component object that holds the state
    and runs the handlers in place. */
module Wizard {
  import opened Validation

  /** What the controller hands to code outside it: the `onComplete` callback
      with the submitted data, and the one-shot confetti burst with its
      particle count, spread angle and vertical origin. */
  datatype Effect = OnComplete(data: FormData) | Confetti(particleCount: nat, spread: nat, originY: real)

  /** The burst fired on completion. */
  const Celebration: Effect := Confetti(100, 70, 0.6)

  /** The component's state hooks, plus the effects it has emitted so far.
      `direction` is 0 before any move, 1 after a forward and -1 after a
      backward move; it only steers the slide animation. */
  datatype WizardState = WizardState(
    currentStep: nat,
    direction: int,
    isCompleted: bool,
    formData: FormData,
    effects: seq<Effect>)

  /** The state on mount: first step, no direction, not completed, no data. */
  const Initial: WizardState := WizardState(0, 0, false, map[], [])

  /** `isStepValid()`: the policy applied to the title of the current step. */
  predicate CurrentStepValid(steps: seq<string>, s: WizardState)
    requires s.currentStep < |steps|
  {
    StepValid(steps[s.currentStep], s.formData)
  }

  /** The shallow merge `{ ...data, ...patch }`: the patch's keys take the
      patch's values, every other key keeps its value, and no key is lost. */
  function Merge(data: FormData, patch: FormData): (r: FormData)
    ensures r.Keys == data.Keys + patch.Keys
    ensures forall k :: k in patch ==> r[k] == patch[k]
    ensures forall k :: k in data && k !in patch ==> r[k] == data[k]
  {
    data + patch
  }

  /** `handleNext`: advance from a valid step that is not the last, complete
      from a valid last step, and otherwise do nothing. The validity check is
      only reached once the index test holds, as in the source. The data is
      never touched, the index moves at most one step forward, any change at
      all needs a step whose check passes, and completing emits `onComplete`
      with the data and then the confetti. */
  function Next(steps: seq<string>, s: WizardState): (r: WizardState)
    ensures r.formData == s.formData
    ensures r.currentStep == s.currentStep || r.currentStep == s.currentStep + 1
    ensures r != s ==> s.currentStep < |steps| && CurrentStepValid(steps, s)
    ensures r.isCompleted != s.isCompleted ==>
      r.isCompleted && r.effects == s.effects + [OnComplete(s.formData), Celebration]
  {
    if s.currentStep < |steps| - 1 && CurrentStepValid(steps, s) then
      s.(direction := 1, currentStep := s.currentStep + 1)
    else if s.currentStep == |steps| - 1 && CurrentStepValid(steps, s) then
      s.(isCompleted := true, effects := s.effects + [OnComplete(s.formData), Celebration])
    else
      s
  }

  /** `handlePrevious`: step back unless already on the first step. Only the
      index and the direction can change. */
  function Previous(s: WizardState): (r: WizardState)
    ensures r.currentStep == if s.currentStep > 0 then s.currentStep - 1 else 0
    ensures r.formData == s.formData && r.isCompleted == s.isCompleted && r.effects == s.effects
  {
    if s.currentStep > 0 then s.(direction := -1, currentStep := s.currentStep - 1) else s
  }

  /** `updateFormData`: merge a partial record into the accumulated data. The
      patched fields take their new values, every other field is kept, and
      nothing but the data changes. */
  function Update(s: WizardState, patch: FormData): (r: WizardState)
    ensures r.formData.Keys == s.formData.Keys + patch.Keys
    ensures forall k :: k in patch ==> r.formData[k] == patch[k]
    ensures forall k :: k in s.formData && k !in patch ==> r.formData[k] == s.formData[k]
    ensures r.(formData := s.formData) == s
  {
    s.(formData := Merge(s.formData, patch))
  }

  /** The invariant of a mounted form over a non-empty step list: the index
      names a step, the direction is one of its three values, and nothing has
      been emitted before completion, while a completed form sits on its last
      step, whose check its data passes, having emitted exactly one
      `onComplete` with that very data followed by one confetti burst. */
  predicate Inv(steps: seq<string>, s: WizardState) {
    && |steps| >= 1
    && s.currentStep < |steps|
    && (s.direction == -1 || s.direction == 0 || s.direction == 1)
    && (if s.isCompleted then
          && s.currentStep == |steps| - 1
          && StepValid(steps[|steps| - 1], s.formData)
          && s.effects == [OnComplete(s.formData), Celebration]
        else
          s.effects == [])
  }

  // ---------------------------------------------------------------------------
  // The handlers, one case at a time

  /** On a valid step that is not the last, `handleNext` moves exactly one
      step forward, records the forward direction, and changes nothing else. */
  lemma NextAdvances(steps: seq<string>, s: WizardState)
    requires s.currentStep + 1 < |steps| && CurrentStepValid(steps, s)
    ensures Next(steps, s).currentStep == s.currentStep + 1
    ensures Next(steps, s).direction == 1
    ensures Next(steps, s).formData == s.formData
    ensures Next(steps, s).isCompleted == s.isCompleted
    ensures Next(steps, s).effects == s.effects
  {
  }

  /** On an invalid step `handleNext` leaves the whole state untouched. */
  lemma NextBlocked(steps: seq<string>, s: WizardState)
    requires s.currentStep < |steps| && !CurrentStepValid(steps, s)
    ensures Next(steps, s) == s
  {
  }

  /** On a valid last step `handleNext` completes: it keeps the index, the
      direction and the data, and emits `onComplete` with the data unchanged,
      then the confetti burst. */
  lemma NextCompletes(steps: seq<string>, s: WizardState)
    requires s.currentStep == |steps| - 1 && CurrentStepValid(steps, s)
    ensures Next(steps, s).isCompleted
    ensures Next(steps, s).currentStep == s.currentStep
    ensures Next(steps, s).direction == s.direction
    ensures Next(steps, s).formData == s.formData
    ensures Next(steps, s).effects == s.effects + [OnComplete(s.formData), Celebration]
  {
  }

  /** `handlePrevious` moves exactly one step back with the backward
      direction when it can, is a no-op on the first step, and never touches
      the data, the completed flag or the effects. */
  lemma PreviousSpec(s: WizardState)
    ensures s.currentStep > 0 ==> Previous(s).currentStep == s.currentStep - 1 && Previous(s).direction == -1
    ensures s.currentStep == 0 ==> Previous(s) == s
    ensures Previous(s).formData == s.formData
    ensures Previous(s).isCompleted == s.isCompleted
    ensures Previous(s).effects == s.effects
  {
  }

  /** Merging the same patch twice is merging it once. */
  lemma MergeIdempotent(data: FormData, patch: FormData)
    ensures Merge(Merge(data, patch), patch) == Merge(data, patch)
  {
  }

  /** Two merges in a row are a merge, never a replace: updates of distinct
      fields accumulate. */
  lemma MergeAccumulates(data: FormData, p: FormData, q: FormData)
    ensures Merge(Merge(data, p), q) == Merge(data, Merge(p, q))
  {
  }

  // ---------------------------------------------------------------------------
  // The invariant is kept by every handler while the step view is shown

  lemma InitialInv(steps: seq<string>)
    requires |steps| >= 1
    ensures Inv(steps, Initial)
  {
  }

  lemma NextKeepsInv(steps: seq<string>, s: WizardState)
    requires Inv(steps, s) && !s.isCompleted
    ensures Inv(steps, Next(steps, s))
  {
  }

  lemma PreviousKeepsInv(steps: seq<string>, s: WizardState)
    requires Inv(steps, s) && !s.isCompleted
    ensures Inv(steps, Previous(s))
  {
  }

  lemma UpdateKeepsInv(steps: seq<string>, s: WizardState, patch: FormData)
    requires Inv(steps, s) && !s.isCompleted
    ensures Inv(steps, Update(s, patch))
  {
  }

  // ---------------------------------------------------------------------------
  // The component

  /** A mounted `MultiStepForm`. Its handlers are bound only to the step view,
      which is replaced by the thank-you view once the form is completed, so
      each handler runs on a form that is not completed. */
  class MultiStepForm {
    const steps: seq<string>
    var currentStep: nat
    var direction: int
    var isCompleted: bool
    var formData: FormData
    var effects: seq<Effect>

    function State(): WizardState
      reads this
    {
      WizardState(currentStep, direction, isCompleted, formData, effects)
    }

    ghost predicate Valid()
      reads this
    {
      Inv(steps, State())
    }

    /** Mounting with a non-empty step list (the step view indexes
        `steps[currentStep]`). */
    constructor (steps: seq<string>)
      requires |steps| >= 1
      ensures Valid() && this.steps == steps && State() == Initial
    {
      this.steps := steps;
      currentStep, direction, isCompleted := 0, 0, false;
      formData, effects := map[], [];
    }

    /** `isStepValid()`, which also decides whether the Next/Complete button
        is enabled: the current step's title is known to the policy and every
        field that step edits is filled. */
    predicate IsStepValid()
      reads this
      requires Valid()
      ensures IsStepValid() <==>
        KnownTitle(steps[currentStep]) && AllFilled(formData, FieldsOf(steps[currentStep]))
    {
      StepValid(steps[currentStep], formData)
    }

    method HandleNext()
      requires Valid() && !isCompleted
      modifies this
      ensures Valid() && State() == Next(steps, old(State()))
    {
      NextKeepsInv(steps, State());
      if currentStep < |steps| - 1 && IsStepValid() {
        direction := 1;
        currentStep := currentStep + 1;
      } else if currentStep == |steps| - 1 && IsStepValid() {
        isCompleted := true;
        effects := effects + [OnComplete(formData)];
        effects := effects + [Celebration];
      }
    }

    method HandlePrevious()
      requires Valid() && !isCompleted
      modifies this
      ensures Valid() && State() == Previous(old(State()))
    {
      if currentStep > 0 {
        direction := -1;
        currentStep := currentStep - 1;
      }
    }

    method UpdateFormData(patch: FormData)
      requires Valid() && !isCompleted
      modifies this
      ensures Valid() && State() == Update(old(State()), patch)
    {
      formData := Merge(formData, patch);
    }
  }
}
