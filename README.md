# MultiStepForm: a verified model of the wizard controller

This project models the multi-step form wizard of the component library: the
`MultiStepForm` component and the two field-editing steps that feed it
(`components/library/application/MultiStepForm.tsx`).

The wizard holds four pieces of state: the current step index, the slide
direction, the completed flag and the accumulated form data (field name to
string). Three handlers change that state:

- `handleNext` advances one step. On the last step it completes the form. It
  only acts when the current step is valid.
- `handlePrevious` steps back unless the form is on its first step.
- `updateFormData` shallow-merges a partial record into the data.

`isStepValid` dispatches on the current step's title:

- "Personal Info" needs a non-blank name and email.
- "Address" needs a non-blank street and city.
- "Confirmation" always passes.
- Every other title fails.

"Non-blank" means present and non-empty after `String.prototype.trim`. The
field-editing steps keep an advisory error per field ("<name> is required")
and forward every edit to `updateFormData`. A progress indicator draws each
step as done, active or upcoming.

Files and modules:

- `text.dfy` (`Text`): `trim` over the WhiteSpace and LineTerminator code
  points of ECMA-262. `Trim` is proved empty exactly on blank strings.
- `validation.dfy` (`Validation`): the validation policy `StepValid`, the
  field-error message `FieldError`, and their agreement.
- `progress.dfy` (`Progress`): the step-indicator classification.
- `wizard.dfy` (`Wizard`): the state as a datatype and the handlers as pure
  transitions `Next`, `Previous` and `Update`. It also holds the invariant
  `Inv` and the class `MultiStepForm`, whose methods update the state fields
  in place. Each method is proved to produce exactly the transition's result.
- `wizard_runs.dfy` (`Runs`): user actions routed through whatever view is
  rendered (`Dispatch`), whole sessions (`Run`), and the properties of
  sessions.
- `form_steps.dfy` (`FormSteps`): the class `FieldStep`, which models
  `PersonalInfoStep` and `AddressStep` with their `errors` map and
  `validateField`.
- `scenarios.dfy` (`Scenarios`): sessions that fill in a field-editing step
  and click Next, and a complete session of the demo form's three steps.

External effects are recorded, not performed. `onComplete(formData)` and the
`confetti` burst (100 particles, spread 70, origin y 0.6) are appended, in
that order, to an `effects` log in the state.

The handlers do not check `isCompleted` themselves. Completion is terminal
only because the component then renders the thank-you view, which has no
buttons or fields. `Runs.Dispatch` models that: on a completed form every
action is a no-op. The class methods therefore require a form that is not
completed, because they are bound only to the step view.

Three details of the code that the model keeps as they are:

- Titles: `isStepValid` fails closed. Its `default` branch returns `false`
  (MultiStepForm.tsx:182-183), so a step whose title the switch does not name
  can never be left.
- Direction: `direction` starts at 0 (:170). `handleNext` sets it to 1 (:189)
  and `handlePrevious` sets it to -1 (:204). The model keeps these three
  integer values.
- Edits: each `validateField` call forwards a record with exactly one field,
  `{ [name]: value }` (:26, :85), and so does the model's `Edit` action.
  `updateFormData` itself accepts any record.

The field-editing steps are rendered inside `<motion.div key={currentStep}>`
(:265-266), so a step is mounted again every time the user moves to it, and
its `errors` start again at all "" (:18, :77). `FieldStep` is one such mount.
Its shown errors are proved sound (an error shown means the stored value is
blank, and then the step blocks), but not complete: after Previous and Next
a blank stored field shows no error (`Validation.RemountHidesBlankStreet`).

## Model

| member | source | states |
|---|---|---|
| Text.Trim | components/library/application/MultiStepForm.tsx:177 | `trim` yields the empty string exactly when every character is whitespace, never lengthens the string, and a non-empty result starts and ends with a non-whitespace character |
| Text.TrimIsSlice | components/library/application/MultiStepForm.tsx:177 | the trimmed string is a slice of the original with only whitespace before it and only whitespace after it |
| Text.TrimStart | components/library/application/MultiStepForm.tsx:177 | leading trim drops exactly the whitespace prefix and returns the rest of the string as a suffix |
| Text.TrimEnd | components/library/application/MultiStepForm.tsx:177 | trailing trim drops exactly the whitespace suffix and returns the rest of the string as a prefix |
| Validation.Filled | components/library/application/MultiStepForm.tsx:177 | `formData[key]?.trim()` is truthy iff the key is present and its value is not blank |
| Validation.StepValid | components/library/application/MultiStepForm.tsx:173-185 | a step may be left iff its title is one of the three the switch names and every field that step edits is filled; the per-title cases are PersonalInfoValid, AddressValid and OtherTitles |
| Validation.PersonalInfoValid | components/library/application/MultiStepForm.tsx:176-177 | "Personal Info" is valid iff name and email are both present and not blank |
| Validation.AddressValid | components/library/application/MultiStepForm.tsx:178-179 | "Address" is valid iff street and city are both present and not blank |
| Validation.OtherTitles | components/library/application/MultiStepForm.tsx:180-183 | "Confirmation" is always valid; any other title is invalid (fail closed) |
| Validation.FieldError | components/library/application/MultiStepForm.tsx:20-25 | the field's error is empty iff the value is not blank, and is "<name> is required" when it is blank |
| Validation.ErrorsAgreeWithPolicy | components/library/application/MultiStepForm.tsx:173-185 | a field-editing step is valid iff each of its fields is present and the error message `validateField` would compute from its current value is empty: the two rules agree on the data |
| Validation.ShownErrorBlocks | components/library/application/MultiStepForm.tsx:18-27 | when every stored error is backed by a blank stored value, an error shown for a field of the step means the step is invalid |
| Validation.RemountHidesBlankStreet | components/library/application/MultiStepForm.tsx:265-266 | a freshly mounted address step shows no error for a stored blank street, while the step is invalid: stored errors can say less than the policy |
| Validation.ValidityIsLocal | components/library/application/MultiStepForm.tsx:176-179 | a step's validity depends only on the fields that step edits |
| Progress.BadgeOf | components/library/application/MultiStepForm.tsx:247 | the badge shows a check mark exactly on done steps and the 1-based step number otherwise |
| Progress.MarkerOf | components/library/application/MultiStepForm.tsx:239-245 | a step is done iff its index is below the current one and active iff it is the current one; upcoming otherwise |
| Progress.Indicator | components/library/application/MultiStepForm.tsx:229-247 | one marker per step; while a step of the list is shown, exactly `current` markers are done and exactly one is active (with `current` past the end, all are done and none active) |
| Progress.Connectors | components/library/application/MultiStepForm.tsx:253-257 | one connector fewer than steps; connector i is filled iff step i is done |
| Progress.HighlightedIsReached | components/library/application/MultiStepForm.tsx:233-235 | a title is highlighted iff its step is done or active |
| Progress.CountPrefix | components/library/application/MultiStepForm.tsx:240-245 | among the first k markers of the classification, min(current, k) are done, and one is active iff current < k |
| Wizard.Merge | components/library/application/MultiStepForm.tsx:209-211 | the shallow merge keeps every old key, gives the update's keys their new values and leaves all other values alone |
| Wizard.MergeIdempotent | components/library/application/MultiStepForm.tsx:210 | applying the same update twice equals applying it once |
| Wizard.MergeAccumulates | components/library/application/MultiStepForm.tsx:210 | two updates in a row equal one update with both records merged, so updates accumulate and never replace |
| Wizard.Next | components/library/application/MultiStepForm.tsx:187-200 | handleNext never touches the data, moves the index at most one step forward, changes nothing unless the current step is valid, and on completing emits onComplete with the data, then the confetti; the exact cases are NextAdvances, NextBlocked and NextCompletes |
| Wizard.NextAdvances | components/library/application/MultiStepForm.tsx:188-190 | on a valid non-last step, Next raises the index by exactly 1, sets direction 1, and keeps the data, completed flag and effects |
| Wizard.NextBlocked | components/library/application/MultiStepForm.tsx:187-200 | on an invalid step, Next changes nothing |
| Wizard.NextCompletes | components/library/application/MultiStepForm.tsx:191-198 | on a valid last step, Next sets completed, keeps the index, direction and data, and emits onComplete with the unchanged data, then the confetti |
| Wizard.Previous | components/library/application/MultiStepForm.tsx:202-207 | handlePrevious lowers the index by one, stopping at 0, and keeps the data, completed flag and effects; PreviousSpec adds the direction |
| Wizard.PreviousSpec | components/library/application/MultiStepForm.tsx:202-207 | Previous lowers the index by exactly 1 with direction -1 when the index is positive, is a no-op at 0, and never touches the data, completed flag or effects |
| Wizard.Update | components/library/application/MultiStepForm.tsx:209-211 | updateFormData gives the patched fields their new values, keeps every other field and changes nothing but the data; MergeIdempotent and MergeAccumulates relate successive updates |
| Wizard.InitialInv | components/library/application/MultiStepForm.tsx:168-171 | the mounted state satisfies the invariant |
| Wizard.NextKeepsInv | components/library/application/MultiStepForm.tsx:187-200 | Next keeps the index in range and fires onComplete only on a valid last step, with the data it keeps |
| Wizard.PreviousKeepsInv | components/library/application/MultiStepForm.tsx:202-207 | Previous keeps the invariant |
| Wizard.UpdateKeepsInv | components/library/application/MultiStepForm.tsx:209-211 | a data update before completion keeps the invariant |
| Wizard.MultiStepForm.constructor | components/library/application/MultiStepForm.tsx:168-171 | mounting starts at index 0, direction 0, not completed, with empty data |
| Wizard.MultiStepForm.IsStepValid | components/library/application/MultiStepForm.tsx:173-185 | `isStepValid()` holds iff the current title is known to the switch and every field of the current step is filled, as StepValid states |
| Wizard.MultiStepForm.HandleNext | components/library/application/MultiStepForm.tsx:187-200 | the in-place handler produces exactly the state Next gives and keeps the invariant |
| Wizard.MultiStepForm.HandlePrevious | components/library/application/MultiStepForm.tsx:202-207 | the in-place handler produces exactly the state Previous gives and keeps the invariant |
| Wizard.MultiStepForm.UpdateFormData | components/library/application/MultiStepForm.tsx:209-211 | the in-place handler merges the update into the data and changes nothing else |
| FormSteps.FieldStep.PersonalInfo | components/library/application/MultiStepForm.tsx:18 | the personal-info step starts with empty errors for name and email, which are trivially backed by the data |
| FormSteps.FieldStep.Address | components/library/application/MultiStepForm.tsx:77 | the address step starts with empty errors for street and city, which are trivially backed by the data |
| FormSteps.FieldStep.ValidateField | components/library/application/MultiStepForm.tsx:79-86 | sets this field's error from its value, leaves other errors as they were, and always forwards {name: value} to the form's merge, blank values included; keeps every shown error backed by a blank stored value, and an error shown on a field of the current step disables Next |
| Runs.Dispatch | components/library/application/MultiStepForm.tsx:213-221 | on a completed form every action is a no-op (only the thank-you view is rendered); before that an edit stores its value under its field and the clicks leave the data alone |
| Runs.DispatchIsSmall | components/library/application/MultiStepForm.tsx:187-211 | one user action moves the index by at most one and never removes a field |
| Runs.DispatchKeepsInv | components/library/application/MultiStepForm.tsx:213-221 | a user action keeps the invariant, because nothing reaches the handlers once completed |
| Runs.NextKeepsPassed | components/library/application/MultiStepForm.tsx:187-200 | Next only moves past, or completes on, a step whose check passes, so every step behind the index still passes |
| Runs.EditKeepsPassed | components/library/application/MultiStepForm.tsx:20-27 | an edit of the current step's own field cannot invalidate an earlier step with a different title |
| Runs.ForeignEditIsInvisible | components/library/application/MultiStepForm.tsx:173-185 | storing a field a step does not edit leaves that step's validity unchanged |
| Runs.DispatchKeepsPassed | components/library/application/MultiStepForm.tsx:187-221 | no user action routed to the rendered step makes a step behind the index fail its check |
| Runs.RunKeepsInv | components/library/application/MultiStepForm.tsx:187-221 | every session keeps the invariant |
| Runs.SessionBounds | components/library/application/MultiStepForm.tsx:168-207 | from mounting, the index stays in [0, steps-1]; nothing is emitted before completion; a completed session has called onComplete exactly once with its final data, then the confetti |
| Runs.CompletedIsTerminal | components/library/application/MultiStepForm.tsx:213-221 | once completed, no sequence of actions changes the state |
| Runs.KeysOnlyGrow | components/library/application/MultiStepForm.tsx:209-211 | fields only accumulate over a session |
| Runs.UnknownTitleBlocks | components/library/application/MultiStepForm.tsx:182-183 | a step with an unknown title is never passed: the session never goes beyond it and never completes |
| Runs.RunAppend | components/library/application/MultiStepForm.tsx:187-211 | running two sessions one after the other is running their concatenation |
| Runs.RunKeepsPassed | components/library/application/MultiStepForm.tsx:187-193 | with distinct titles and each step editing only its own fields, every step before the current one stays valid |
| Runs.SubmittedDataPassesEveryStep | components/library/application/MultiStepForm.tsx:191-193 | with distinct titles and each step editing only its own fields, the data given to onComplete passes every step's check, not just the last |
| Scenarios.PersonalInfoSession | components/library/application/MultiStepForm.tsx:20-27 | on a non-last "Personal Info" step, entering a name and an email and clicking Next records both and advances by one exactly when neither is blank, otherwise stays |
| Scenarios.AddressSession | components/library/application/MultiStepForm.tsx:79-86 | on a non-last "Address" step, entering a street and a city and clicking Next records both and advances by one exactly when neither is blank, otherwise stays |
| Scenarios.DemoSession | components/library/application/MultiStepForm.tsx:309-337 | in the demo form, four non-blank values entered step by step and a final Complete click complete the form, call onComplete once with exactly those four fields, then fire the confetti |
| Scenarios.SingleStepForm | components/library/application/MultiStepForm.tsx:187-207 | a one-step confirmation form completes on the first Next, and Previous before that is a no-op |

## Left out

- Rendering, markup and CSS classes are not modelled. Only the decisions behind the progress indicator are.
- `React.cloneElement` prop injection is not modelled. A field step is bound to its form directly.
- The `motion`/`AnimatePresence` slide animations are not modelled. `direction` is recorded but its animation is not.
- The confetti is not drawn. It is recorded as an effect with its parameters.
- `onComplete` is not called. The call and its argument are recorded as an effect, and a failing callback is not modelled.
- `MultiStepFormExample` is reduced to its step list (`Scenarios.DemoSteps`). Its own `updateFormData` and its `console.log` are left out: the injected handler replaces the first, and the second is console output.
- `ConfirmationStep` only displays data and is not modelled. The input boxes' `value={formData.x || ""}` display is not modelled either.
- Timing and batching in React state updates are not modelled. Each user action runs on the state left by the previous one. This matches one handler call per render, where the handlers' captured values are current.
- `isStepValid` returns a trimmed string or a falsy value, not a boolean. The model keeps only its truthiness, which is all the button and `handleNext` use.
- Strings are Unicode code points, not UTF-16 code units. Every character `trim` removes lies in the Basic Multilingual Plane, so blankness is the same either way.
- Form values are assumed to be strings. `formData` is typed `any` in the source, but every writer in this file passes strings.
- Wizard.MultiStepForm.HandleNext: requires a form that is not completed. The source handler does not check this; it is simply unreachable from the thank-you view. `Runs.Dispatch` models the view's gating.
- Wizard.MultiStepForm.HandlePrevious: requires a form that is not completed, for the same reason.
- Wizard.MultiStepForm.UpdateFormData: requires a form that is not completed, for the same reason.
- FormSteps.FieldStep.ValidateField: requires a form that is not completed, for the same reason, and a step whose shown errors are backed by the data, which every mount establishes.
- Validation.ErrorsAgreeWithPolicy: relates the policy to the error message computed from the current data, not to the errors a step has stored. Those reset to "" each time the step is mounted again (:265-266, :18, :77) and can then show no error on a step that blocks; only the direction "an error shown means the step blocks" is proved for them (`ValidateField`, `ShownErrorBlocks`).
- Shown-error soundness assumes that while a step is mounted no other code writes its fields into the form data, as in the source, where only the rendered step edits.
- `components/library/application/AnimatedDock.tsx` is not part of this model. It does floating-point pointer-distance and spring interpolation over DOM geometry.
- `components/ui/subscribe-button.tsx` is not part of this model. It is a status cycle driven by async timers.
- `components/library/marketing/TestimonialCard.tsx`, `components/library/text/ShinyPill.tsx` and `components/library/text/AnimatedUnderline.tsx` are not part of this model. They are presentational or CSS-only.
- `next.config.mjs` is not part of this model. It is build configuration.
