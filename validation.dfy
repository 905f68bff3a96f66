/** The validation policy of the multi-step form: which step titles may be
    left, and the advisory per-field error message of the field-editing steps. */
module Validation {
  import opened Text

  /** The accumulated form data: field name to field value. */
  type FormData = map<string, string>

  /** `formData[key]?.trim()` is truthy: the field is present and is not blank
      once trimmed. An absent field reads as `undefined`, which is falsy. */
  predicate Filled(data: FormData, key: string)
    ensures Filled(data, key) <==> key in data && !Blank(data[key])
  {
    key in data && Trim(data[key]) != ""
  }

  /** The three titles the policy has a case for. */
  predicate KnownTitle(title: string) {
    title == "Personal Info" || title == "Address" || title == "Confirmation"
  }

  /** The fields that the step shown under `title` edits in the demo wiring:
      `PersonalInfoStep` edits name and email, `AddressStep` street and city,
      and `ConfirmationStep` edits nothing. */
  function FieldsOf(title: string): set<string> {
    if title == "Personal Info" then {"name", "email"}
    else if title == "Address" then {"street", "city"}
    else {}
  }

  /** Every one of `fields` is filled in `data`. */
  predicate AllFilled(data: FormData, fields: set<string>) {
    forall f :: f in fields ==> Filled(data, f)
  }

  /** `isStepValid`, applied to the title of the current step: dispatch on the
      title, failing closed on a title it does not know. A step may be left
      exactly when the policy knows its title and every field that step edits
      is filled. */
  predicate StepValid(title: string, data: FormData)
    ensures StepValid(title, data) <==> KnownTitle(title) && AllFilled(data, FieldsOf(title))
  {
    if title == "Personal Info" then
      FilledPair(data, "name", "email");
      Filled(data, "name") && Filled(data, "email")
    else if title == "Address" then
      FilledPair(data, "street", "city");
      Filled(data, "street") && Filled(data, "city")
    else if title == "Confirmation" then true
    else false
  }

  lemma FilledPair(data: FormData, a: string, b: string)
    ensures AllFilled(data, {a, b}) <==> Filled(data, a) && Filled(data, b)
  {
  }

  /** The message `validateField` records for a field: "<name> is required"
      when the value trims to empty, the empty string (no error) otherwise. */
  function FieldError(name: string, value: string): (msg: string)
    ensures msg == "" <==> !Blank(value)
    ensures Blank(value) ==> msg == name + " is required"
  {
    if Trim(value) == "" then name + " is required" else ""
  }

  /** A step titled "Personal Info" may be left exactly when name and email
      are both present and not blank. */
  lemma PersonalInfoValid(data: FormData)
    ensures StepValid("Personal Info", data) <==>
      "name" in data && !Blank(data["name"]) && "email" in data && !Blank(data["email"])
  {
  }

  /** A step titled "Address" may be left exactly when street and city are
      both present and not blank. */
  lemma AddressValid(data: FormData)
    ensures StepValid("Address", data) <==>
      "street" in data && !Blank(data["street"]) && "city" in data && !Blank(data["city"])
  {
  }

  /** The confirmation step never blocks; any title other than the three known
      ones always blocks. */
  lemma OtherTitles(title: string, data: FormData)
    ensures title == "Confirmation" ==> StepValid(title, data)
    ensures title != "Personal Info" && title != "Address" && title != "Confirmation" ==>
      !StepValid(title, data)
  {
  }

  /** The policy and the error rule of `validateField` agree: a field-editing
      step is valid exactly when each of its fields is present and the error
      message computed from its current value is empty. */
  lemma ErrorsAgreeWithPolicy(title: string, data: FormData)
    requires title == "Personal Info" || title == "Address"
    ensures StepValid(title, data) <==>
      forall f :: f in FieldsOf(title) ==> f in data && FieldError(f, data[f]) == ""
  {
  }

  /** Validity of a step depends only on the fields that step edits: an update
      that leaves those fields alone leaves the step's validity alone. */
  lemma ValidityIsLocal(title: string, data: FormData, other: FormData)
    requires forall f :: f in FieldsOf(title) ==> (f in data <==> f in other)
    requires forall f :: f in FieldsOf(title) && f in data ==> data[f] == other[f]
    ensures StepValid(title, data) == StepValid(title, other)
  {
  }

  /** The stored errors of a step are reset when the step is mounted again, so
      they may say less than the policy: here the address step has just been
      mounted again with no error shown, while the street it stored is blank
      and the step blocks. */
  lemma RemountHidesBlankStreet(data: FormData, errors: map<string, string>)
    requires data == map["street" := " ", "city" := "NYC"]
    requires errors == map["street" := "", "city" := ""]
    ensures "street" in data && Blank(data["street"]) && errors["street"] == ""
    ensures !StepValid("Address", data)
  {
    assert IsWhitespace(data["street"][0]);
  }

  /** What the stored errors do promise: an error shown for a field the step
      edits means the step blocks, as long as every error shown is backed by a
      blank stored value. */
  lemma ShownErrorBlocks(title: string, data: FormData, errors: map<string, string>, f: string)
    requires forall g :: g in errors && errors[g] != "" ==> g in data && Blank(data[g])
    requires f in FieldsOf(title) && f in errors && errors[f] != ""
    ensures !StepValid(title, data)
  {
  }
}
