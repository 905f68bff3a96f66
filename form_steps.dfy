/** The field-editing steps `PersonalInfoStep` and `AddressStep`: each keeps
    an advisory error message per field and forwards every edit to the form. */
module FormSteps {
  import Text
  import opened Validation
  import opened Wizard

  /** A rendered field-editing step, bound to the form it was injected into.
      The two steps differ only in their fields and the initial errors map. */
  class FieldStep {
    const form: MultiStepForm
    var errors: map<string, string>

    /** Every error shown is backed by the form's data: the field is stored
        and its value is blank. (The converse need not hold: the step is
        mounted again each time it is shown, with no error at all.) */
    ghost predicate ErrorsSound()
      reads this, form
    {
      forall f :: f in errors && errors[f] != "" ==> f in form.formData && Text.Blank(form.formData[f])
    }

    /** `PersonalInfoStep`: no error shown for name or email yet. */
    constructor PersonalInfo(form: MultiStepForm)
      ensures this.form == form && errors == map["name" := "", "email" := ""]
      ensures ErrorsSound()
    {
      this.form := form;
      errors := map["name" := "", "email" := ""];
    }

    /** `AddressStep`: no error shown for street or city yet. */
    constructor Address(form: MultiStepForm)
      ensures this.form == form && errors == map["street" := "", "city" := ""]
      ensures ErrorsSound()
    {
      this.form := form;
      errors := map["street" := "", "city" := ""];
    }

    /** `validateField(name, value)`: record "<name> is required" when the
        value trims to empty and clear the error otherwise, leaving the other
        fields' errors as they were; in both cases forward `{ [name]: value }`
        to the form's `updateFormData`, blank values included. Shown errors
        stay backed by the data, and an error shown for a field of the
        current step means the Next/Complete button is disabled. */
    method ValidateField(name: string, value: string)
      requires form.Valid() && !form.isCompleted && ErrorsSound()
      modifies this, form
      ensures errors == old(errors)[name := FieldError(name, value)]
      ensures form.Valid() && form.State() == Update(old(form.State()), map[name := value])
      ensures ErrorsSound()
      ensures name in FieldsOf(form.steps[form.currentStep]) && errors[name] != "" ==> !form.IsStepValid()
    {
      if Text.Trim(value) == "" {
        errors := errors[name := name + " is required"];
      } else {
        errors := errors[name := ""];
      }
      form.UpdateFormData(map[name := value]);
      if name in FieldsOf(form.steps[form.currentStep]) && errors[name] != "" {
        ShownErrorBlocks(form.steps[form.currentStep], form.formData, errors, name);
      }
    }
  }
}
