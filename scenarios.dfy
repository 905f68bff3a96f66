/** Sessions of the demo form of `MultiStepFormExample` and of its two
    field-editing steps: filling in a step's fields and clicking Next. Each
    session is passed in as a parameter equal to its actions, so that it is
    unfolded one action at a time. */
module Scenarios {
  import opened Text
  import opened Validation
  import opened Wizard
  import opened Runs

  const DemoSteps: seq<string> := ["Personal Info", "Address", "Confirmation"]

  /** Running three actions is dispatching them in turn. */
  lemma RunOfThree(steps: seq<string>, s: WizardState, acts: seq<Action>)
    requires |acts| == 3
    ensures Run(steps, s, acts)
      == Dispatch(steps, Dispatch(steps, Dispatch(steps, s, acts[0]), acts[1]), acts[2])
  {
    var s1 := Dispatch(steps, s, acts[0]);
    var s2 := Dispatch(steps, s1, acts[1]);
    assert acts[1..][0] == acts[1] && acts[1..][1..][0] == acts[2] && acts[1..][1..][1..] == [];
    assert Run(steps, s, acts) == Run(steps, s1, acts[1..]);
    assert Run(steps, s1, acts[1..]) == Run(steps, s2, acts[1..][1..]);
  }

  /** Merging a one-field record is updating that one field. */
  lemma EditIsUpdate(data: FormData, name: string, value: string)
    ensures Merge(data, map[name := value]) == data[name := value]
  {
  }

  /** On a "Personal Info" step that is not the last, entering a name and an
      email and clicking Next records both and advances exactly when neither
      is blank; otherwise the form stays on the step. */
  lemma PersonalInfoSession(steps: seq<string>, s: WizardState, name: string, email: string, acts: seq<Action>)
    requires !s.isCompleted && s.currentStep + 1 < |steps| && steps[s.currentStep] == "Personal Info"
    requires acts == [Edit("name", name), Edit("email", email), ClickNext]
    ensures var r := Run(steps, s, acts);
      && r.formData == s.formData["name" := name]["email" := email]
      && r.currentStep == (if !Blank(name) && !Blank(email) then s.currentStep + 1 else s.currentStep)
      && !r.isCompleted && r.effects == s.effects
  {
    RunOfThree(steps, s, acts);
    var s1 := Dispatch(steps, s, acts[0]);
    assert s1 == s.(formData := s.formData["name" := name]) by { EditIsUpdate(s.formData, "name", name); }
    var s2 := Dispatch(steps, s1, acts[1]);
    assert s2 == s.(formData := s.formData["name" := name]["email" := email]) by {
      EditIsUpdate(s1.formData, "email", email);
    }
    PersonalInfoValid(s2.formData);
    assert CurrentStepValid(steps, s2) <==> !Blank(name) && !Blank(email);
    assert Run(steps, s, acts) == Next(steps, s2);
    if !Blank(name) && !Blank(email) {
      NextAdvances(steps, s2);
    } else {
      NextBlocked(steps, s2);
    }
  }

  /** On an "Address" step that is not the last, entering a street and a city
      and clicking Next records both and advances exactly when neither is
      blank; otherwise the form stays on the step. */
  lemma AddressSession(steps: seq<string>, s: WizardState, street: string, city: string, acts: seq<Action>)
    requires !s.isCompleted && s.currentStep + 1 < |steps| && steps[s.currentStep] == "Address"
    requires acts == [Edit("street", street), Edit("city", city), ClickNext]
    ensures var r := Run(steps, s, acts);
      && r.formData == s.formData["street" := street]["city" := city]
      && r.currentStep == (if !Blank(street) && !Blank(city) then s.currentStep + 1 else s.currentStep)
      && !r.isCompleted && r.effects == s.effects
  {
    RunOfThree(steps, s, acts);
    var s1 := Dispatch(steps, s, acts[0]);
    assert s1 == s.(formData := s.formData["street" := street]) by { EditIsUpdate(s.formData, "street", street); }
    var s2 := Dispatch(steps, s1, acts[1]);
    assert s2 == s.(formData := s.formData["street" := street]["city" := city]) by {
      EditIsUpdate(s1.formData, "city", city);
    }
    AddressValid(s2.formData);
    assert CurrentStepValid(steps, s2) <==> !Blank(street) && !Blank(city);
    assert Run(steps, s, acts) == Next(steps, s2);
    if !Blank(street) && !Blank(city) {
      NextAdvances(steps, s2);
    } else {
      NextBlocked(steps, s2);
    }
  }

  /** A completed demo session: with four non-blank values entered step by
      step, the final click on the confirmation step completes the form and
      `onComplete` receives all four fields, followed by the confetti. */
  lemma DemoSession(name: string, email: string, street: string, city: string,
                    a: seq<Action>, b: seq<Action>, c: seq<Action>)
    requires !Blank(name) && !Blank(email) && !Blank(street) && !Blank(city)
    requires a == [Edit("name", name), Edit("email", email), ClickNext]
    requires b == [Edit("street", street), Edit("city", city), ClickNext]
    requires c == [ClickNext]
    ensures var r := Run(DemoSteps, Initial, a + b + c);
      && r.isCompleted && r.currentStep == 2
      && r.effects == [OnComplete(map["name" := name, "email" := email, "street" := street, "city" := city]), Celebration]
  {
    var data := map["name" := name, "email" := email, "street" := street, "city" := city];
    PersonalInfoSession(DemoSteps, Initial, name, email, a);
    var s1 := Run(DemoSteps, Initial, a);
    AddressSession(DemoSteps, s1, street, city, b);
    var s2 := Run(DemoSteps, s1, b);
    assert s2.formData == data;
    var s3 := Run(DemoSteps, s2, c);
    assert c[0] == ClickNext && c[1..] == [];
    assert s3 == Run(DemoSteps, Dispatch(DemoSteps, s2, c[0]), c[1..]);
    assert s3 == Next(DemoSteps, s2);
    RunThree(DemoSteps, Initial, a, b, c, s1, s2, s3);
  }

  /** A form of a single confirmation step completes on the first Next, and
      Previous before that is a no-op. */
  lemma SingleStepForm(steps: seq<string>, acts: seq<Action>)
    requires steps == ["Confirmation"] && |acts| == 1
    ensures acts[0] == ClickPrevious ==> Run(steps, Initial, acts) == Initial
    ensures acts[0] == ClickNext ==> Run(steps, Initial, acts).isCompleted
  {
    assert acts[1..] == [];
    assert Run(steps, Initial, acts) == Dispatch(steps, Initial, acts[0]);
  }
}
