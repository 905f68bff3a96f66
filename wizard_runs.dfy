/** The form as the user drives it: each user action reaches the controller
    through the view that is currently rendered, and the properties of whole
    sessions of such actions. */
module Runs {
  import opened Validation
  import opened Wizard

  /** A click on Next/Complete, a click on Previous, or an edit of one field
      in the rendered step, which `validateField` forwards as
      `updateFormData({ [name]: value })`. */
  datatype Action = ClickNext | ClickPrevious | Edit(name: string, value: string)

  /** One user action. Once the form is completed only the thank-you view is
      rendered, which has neither buttons nor fields, so nothing happens.
      Before that, an edit stores its value under its field, and the clicks
      leave the data alone. */
  function Dispatch(steps: seq<string>, s: WizardState, a: Action): (r: WizardState)
    ensures s.isCompleted ==> r == s
    ensures !s.isCompleted && a.Edit? ==> a.name in r.formData && r.formData[a.name] == a.value
    ensures !a.Edit? ==> r.formData == s.formData
  {
    if s.isCompleted then s
    else
      match a
      case ClickNext => Next(steps, s)
      case ClickPrevious => Previous(s)
      case Edit(name, value) => Update(s, map[name := value])
  }

  /** A session: the actions applied one after another. */
  function Run(steps: seq<string>, s: WizardState, acts: seq<Action>): WizardState
    decreases |acts|
  {
    if acts == [] then s else Run(steps, Dispatch(steps, s, acts[0]), acts[1..])
  }

  /** Each step title names one step. */
  predicate DistinctTitles(steps: seq<string>) {
    forall i, j :: 0 <= i < j < |steps| ==> steps[i] != steps[j]
  }

  /** Every edit in the session comes from the rendered step and touches only
      a field that step owns, as in the demo wiring where the step titled
      "Personal Info" shows `PersonalInfoStep` and so on. */
  predicate Wired(steps: seq<string>, s: WizardState, acts: seq<Action>)
    decreases |acts|
  {
    acts == [] ||
    (&& s.currentStep < |steps|
     && (acts[0].Edit? ==> acts[0].name in FieldsOf(steps[s.currentStep]))
     && Wired(steps, Dispatch(steps, s, acts[0]), acts[1..]))
  }

  /** Every step before the current one passes its check, and so does every
      step once the form is completed. */
  predicate Passed(steps: seq<string>, s: WizardState) {
    && (forall j :: 0 <= j < s.currentStep && j < |steps| ==> StepValid(steps[j], s.formData))
    && (s.isCompleted ==> forall j :: 0 <= j < |steps| ==> StepValid(steps[j], s.formData))
  }

  // ---------------------------------------------------------------------------
  // Single actions

  /** One action moves the index by at most one step and never removes a
      field from the data. */
  lemma DispatchIsSmall(steps: seq<string>, s: WizardState, a: Action)
    ensures var r := Dispatch(steps, s, a);
      && (r.currentStep == s.currentStep || r.currentStep == s.currentStep + 1 || r.currentStep + 1 == s.currentStep)
      && s.formData.Keys <= r.formData.Keys
  {
  }

  lemma DispatchKeepsInv(steps: seq<string>, s: WizardState, a: Action)
    requires Inv(steps, s)
    ensures Inv(steps, Dispatch(steps, s, a))
  {
    if !s.isCompleted {
      match a
      case ClickNext => NextKeepsInv(steps, s);
      case ClickPrevious => PreviousKeepsInv(steps, s);
      case Edit(name, value) => UpdateKeepsInv(steps, s, map[name := value]);
    }
  }

  /** Fields owned by two different titles never overlap. */
  lemma OwnedFieldsDisjoint(t: string, u: string)
    requires t != u
    ensures FieldsOf(t) !! FieldsOf(u)
  {
  }

  lemma NextKeepsPassed(steps: seq<string>, s: WizardState)
    requires Inv(steps, s) && Passed(steps, s) && !s.isCompleted
    ensures Passed(steps, Next(steps, s))
  {
    var r := Next(steps, s);
    if r != s {
      forall j | 0 <= j <= s.currentStep
        ensures StepValid(steps[j], s.formData)
      {
      }
    }
  }

  lemma EditKeepsPassed(steps: seq<string>, s: WizardState, name: string, value: string)
    requires Inv(steps, s) && Passed(steps, s) && DistinctTitles(steps) && !s.isCompleted
    requires name in FieldsOf(steps[s.currentStep])
    ensures Passed(steps, Update(s, map[name := value]))
  {
    var r := Update(s, map[name := value]);
    assert r.formData == s.formData[name := value];
    forall j | 0 <= j < s.currentStep
      ensures StepValid(steps[j], r.formData)
    {
      OwnedFieldsDisjoint(steps[j], steps[s.currentStep]);
      ForeignEditIsInvisible(steps[j], s.formData, name, value);
    }
  }

  /** Storing a field that a step does not edit leaves that step's validity
      alone. */
  lemma ForeignEditIsInvisible(title: string, data: FormData, name: string, value: string)
    requires name !in FieldsOf(title)
    ensures StepValid(title, data[name := value]) == StepValid(title, data)
  {
    ValidityIsLocal(title, data, data[name := value]);
  }

  lemma DispatchKeepsPassed(steps: seq<string>, s: WizardState, a: Action)
    requires Inv(steps, s) && Passed(steps, s) && DistinctTitles(steps)
    requires a.Edit? ==> a.name in FieldsOf(steps[s.currentStep])
    ensures Passed(steps, Dispatch(steps, s, a))
  {
    if !s.isCompleted {
      match a
      case ClickNext => NextKeepsPassed(steps, s);
      case ClickPrevious =>
      case Edit(name, value) => EditKeepsPassed(steps, s, name, value);
    }
  }

  // ---------------------------------------------------------------------------
  // Whole sessions

  /** Over any session the invariant holds: the index stays within the step
      list and `onComplete` has been called at most once. */
  lemma {:induction false} RunKeepsInv(steps: seq<string>, s: WizardState, acts: seq<Action>)
    requires Inv(steps, s)
    ensures Inv(steps, Run(steps, s, acts))
    decreases |acts|
  {
    if acts != [] {
      DispatchKeepsInv(steps, s, acts[0]);
      RunKeepsInv(steps, Dispatch(steps, s, acts[0]), acts[1..]);
    }
  }

  /** From mounting, every session keeps the index in `[0, |steps| - 1]`;
      it has emitted nothing unless it is completed, and a completed session
      has called `onComplete` exactly once, with its final data, and then
      fired the confetti once. */
  lemma SessionBounds(steps: seq<string>, acts: seq<Action>)
    requires |steps| >= 1
    ensures var r := Run(steps, Initial, acts);
      && 0 <= r.currentStep <= |steps| - 1
      && (!r.isCompleted ==> r.effects == [])
      && (r.isCompleted ==> r.effects == [OnComplete(r.formData), Celebration])
  {
    InitialInv(steps);
    RunKeepsInv(steps, Initial, acts);
  }

  /** Sessions compose: running two sessions one after the other is running
      their concatenation. */
  lemma {:induction false} RunAppend(steps: seq<string>, s: WizardState, a: seq<Action>, b: seq<Action>)
    ensures Run(steps, s, a + b) == Run(steps, Run(steps, s, a), b)
    decreases |a|
  {
    if a == [] {
      assert a + b == b;
    } else {
      assert (a + b)[0] == a[0] && (a + b)[1..] == a[1..] + b;
      RunAppend(steps, Dispatch(steps, s, a[0]), a[1..], b);
    }
  }

  /** Three sessions run one after the other, each from where the previous
      one ended, are one session. */
  lemma RunThree(steps: seq<string>, s0: WizardState, a: seq<Action>, b: seq<Action>, c: seq<Action>,
                 s1: WizardState, s2: WizardState, s3: WizardState)
    requires Run(steps, s0, a) == s1 && Run(steps, s1, b) == s2 && Run(steps, s2, c) == s3
    ensures Run(steps, s0, a + b + c) == s3
  {
    RunAppend(steps, s0, a + b, c);
    RunAppend(steps, s0, a, b);
  }

  /** Completion is terminal: no later action changes anything. */
  lemma {:induction false} CompletedIsTerminal(steps: seq<string>, s: WizardState, acts: seq<Action>)
    requires s.isCompleted
    ensures Run(steps, s, acts) == s
    decreases |acts|
  {
    if acts != [] {
      CompletedIsTerminal(steps, Dispatch(steps, s, acts[0]), acts[1..]);
    }
  }

  /** Fields only accumulate: a field present at some point stays present. */
  lemma {:induction false} KeysOnlyGrow(steps: seq<string>, s: WizardState, acts: seq<Action>)
    ensures s.formData.Keys <= Run(steps, s, acts).formData.Keys
    decreases |acts|
  {
    if acts != [] {
      DispatchIsSmall(steps, s, acts[0]);
      KeysOnlyGrow(steps, Dispatch(steps, s, acts[0]), acts[1..]);
    }
  }

  /** Fail closed: a step with a title the policy does not know can never be
      passed, so the session never gets beyond it and never completes. */
  lemma {:induction false} UnknownTitleBlocks(steps: seq<string>, k: nat, s: WizardState, acts: seq<Action>)
    requires Inv(steps, s) && !s.isCompleted
    requires k < |steps| && s.currentStep <= k
    requires steps[k] != "Personal Info" && steps[k] != "Address" && steps[k] != "Confirmation"
    ensures Run(steps, s, acts).currentStep <= k
    ensures !Run(steps, s, acts).isCompleted
    decreases |acts|
  {
    if acts != [] {
      var t := Dispatch(steps, s, acts[0]);
      DispatchKeepsInv(steps, s, acts[0]);
      OtherTitles(steps[k], s.formData);
      UnknownTitleBlocks(steps, k, t, acts[1..]);
    }
  }

  lemma {:induction false} RunKeepsPassed(steps: seq<string>, s: WizardState, acts: seq<Action>)
    requires Inv(steps, s) && Passed(steps, s) && DistinctTitles(steps)
    requires Wired(steps, s, acts)
    ensures Passed(steps, Run(steps, s, acts))
    decreases |acts|
  {
    if acts != [] {
      DispatchKeepsInv(steps, s, acts[0]);
      DispatchKeepsPassed(steps, s, acts[0]);
      RunKeepsPassed(steps, Dispatch(steps, s, acts[0]), acts[1..]);
    }
  }

  /** With distinct titles and each step editing only its own fields, the
      data handed to `onComplete` passes the check of every step, not just of
      the last one: a step passed earlier cannot be invalidated later. */
  lemma SubmittedDataPassesEveryStep(steps: seq<string>, acts: seq<Action>)
    requires |steps| >= 1 && DistinctTitles(steps)
    requires Wired(steps, Initial, acts)
    ensures var r := Run(steps, Initial, acts);
      r.isCompleted ==> forall j :: 0 <= j < |steps| ==> StepValid(steps[j], r.formData)
  {
    InitialInv(steps);
    RunKeepsInv(steps, Initial, acts);
    RunKeepsPassed(steps, Initial, acts);
  }
}
