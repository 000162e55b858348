# useForm form-state controller, modelled in Dafny

This project models the form-state controller of the `useForm` React hook in
`src/index.js` of react-hooks-form. It also models the todo form's validator
`formErrors` and its `validateStatus` helper.

The hook keeps one state record with these fields:

- `name`
- `initialState`
- `values`
- `touched`
- `errors`
- `isSubmitting`

It changes that record only through updater functions, each of which maps the
previous state to the next one. The model has three files:

- `form_model.dfy` (module `FormModel`)
  - The record `FormState`, and `Value = Str | Bool` (a checkbox stores a boolean).
  - The updaters as pure functions, parameterised by an arbitrary validator
    `Values -> Errors`: change, blur, `setFieldValue`, touch-all-on-submit,
    reset and the submit result updaters. The validation pass replaces
    `errors` wholesale.
  - The asynchronous submit, split into three discrete steps: begin (touch
    every field and raise the flag), decide (validate, then either store the
    errors or invoke the action with the values) and settle (clear the flag,
    whether the action resolved or rejected).
  - `Run`, which folds a sequence of events over the state, and lemmas about
    every run: identity is kept, the last write wins, and reset restores the
    construction values.
  - `MarkAllFieldsAsTouched`, the reduce that builds the touched map key by
    key, as a loop proved against `AllTouched`.
- `todo_form.dfy` (module `TodoForm`)
  - `formErrors` in two forms: a declarative function `FormErrors` (one rule
    per field) and the step-by-step method `ComputeFormErrors`, proved equal.
  - `validateStatus`.
  - The edit-and-submit scenarios on the todo form's initial values.
- `controller.dfy` (module `Controller`)
  - The class `FormController`, which stands for the hook's one mutable state
    cell. It has one method per operation. Each method's contract ties the new
    state to the pure updater applied to the old state.
  - The class also records the values each submit-action call received, and
    what the persistence effect wrote. Both are ghost fields.
  - A client method drives the todo form through the controller's contracts.

JavaScript semantics are modelled explicitly where the code depends on them:

- A missing field, the empty string and `false` are falsy (`!fields.description`).
- A boolean has no `length`, and `undefined < 6` is false. So a `true` in
  `description` passes the length check.
- `validateStatus` treats an empty-string message as no error, as
  `errors[field] ? … : …` does.
- String length is the length of a Dafny `string`, which stands in for the
  UTF-16 length.

In these places the model follows the code as written:

- Construction and reset set `errors` to `{}` without running the validator.
  So `errors` is not always the validator's verdict on the current values.
  Over every run from construction it is either empty or that verdict
  (`RunKeepsErrorsEmptyOrCurrent`). A change, blur or `setFieldValue` always
  leaves it equal to the verdict (`ErrorsFollowLastEdit`), and so does a
  rejected submit (`Decide`).
- Without a submit action (`if (submit)` is false), a submit still touches
  every field and sets `isSubmitting`, and nothing ever clears the flag
  (`SubmitWithoutActionStaysSubmitting`).
- When validation passes, the submit's result updaters never write `errors`.
  The decide step leaves `errors` as it was.
- The code has no mechanism for discarding stale or out-of-order validation
  results. The validator runs synchronously. For a change, blur or
  `setFieldValue` it runs on the state being built. For a submit it runs on
  the render-time snapshot (src/index.js:117); the model runs it on the
  current values (see "Left out").

## Model

| member | source | states |
|---|---|---|
| `FormModel.Init` | src/index.js:24-29 | a new record carries the given name and initial snapshot, is not submitting, and is already in its reset state (values equal the snapshot, nothing touched, no errors) |
| `FormModel.Validated` | src/index.js:42-52 | a validation pass replaces `errors` by the validator's verdict on the current values and changes nothing else |
| `FormModel.ValidatedIdempotent` | src/index.js:42-52 | validating twice gives the same state as validating once |
| `FormModel.StoredValue` | src/index.js:62-65 | the stored value is a boolean exactly for a `"checkbox"` input; it is then the checked flag, otherwise the input's value |
| `FormModel.OnChange` | src/index.js:57-72 | `values[name]` becomes the stored value; every other key keeps its value and no key is added or dropped; `errors` is the validator's verdict on the new values; `touched`, `isSubmitting`, `name` and `initialState` are unchanged |
| `FormModel.ChangesOnDistinctFieldsCommute` | src/index.js:57-72 | changes to two different fields give the same state in either order |
| `FormModel.OnBlur` | src/index.js:78-90 | `touched[field]` becomes true and every other touched entry is kept; `values` is unchanged; `errors` is recomputed from the unchanged values; nothing else changes |
| `FormModel.BlurIdempotent` | src/index.js:78-90 | blurring the same field twice equals blurring it once |
| `FormModel.SetFieldValue` | src/index.js:93-111 | `values[field]` becomes the value and `touched[field]` becomes true; all other keys of both maps are kept; `errors` is the verdict on the new values; nothing else changes |
| `FormModel.SetFieldValueIsChangeThenBlur` | src/index.js:57-111 | `setFieldValue` equals a change event on the field followed by a blur of it |
| `FormModel.AllTouched` | src/index.js:160-165 | the touched map built on submit has exactly the keys of `values`, all mapped to true |
| `FormModel.MarkAllFieldsAsTouched` | src/index.js:160-165 | the reduce that sets one key at a time produces exactly `AllTouched(values)` |
| `FormModel.TouchAllFieldsOnSubmit` | src/index.js:159-172 | `touched` is replaced by a map whose keys are exactly the keys of `values` (keys absent from `values` are dropped), all true; `isSubmitting` becomes true; `values`, `errors` and identity are unchanged |
| `FormModel.Reset` | src/index.js:174-181 | `values` becomes `initialState`; `touched` and `errors` become empty; `isSubmitting`, `name` and `initialState` are unchanged |
| `FormModel.ResetIdempotent` | src/index.js:174-181 | applying reset twice equals applying it once |
| `FormModel.IsValid` | src/index.js:37-40 | true exactly when some key is present in `errors`; the name is the opposite of what it returns |
| `FormModel.Decide` | src/index.js:116-140 | the action is invoked exactly when an action exists and the validator finds nothing, and then with the current values and no state change; when it finds errors, they are stored and `isSubmitting` clears, and nothing else changes; without an action nothing happens |
| `FormModel.Settle` | src/index.js:122-133 | after the action settles, `isSubmitting` is false and nothing else has changed |
| `FormModel.SettleIgnoresOutcome` | src/index.js:122-133 | a resolved and a rejected action lead to the same state |
| `FormModel.SubmitOutcome` | src/index.js:113-143 | a full submit keeps `values` and touches all fields; failed validation stores the errors, clears the flag and does not invoke the action; passed validation invokes it once with the values, and settling then differs from the started state only in the flag, now false |
| `FormModel.SubmitWithoutActionStaysSubmitting` | src/index.js:113-116 | with no submit action the action is not invoked, `errors` is untouched and `isSubmitting` stays true |
| `FormModel.StepKeepsTouchedTrue` | src/index.js:57-181 | no updater ever stores a `false` touched flag |
| `FormModel.RunKeepsTouchedTrue` | src/index.js:57-181 | touched flags stay all true over any sequence of events |
| `FormModel.RunKeepsIdentity` | src/index.js:57-181 | no sequence of events changes `name` or `initialState` |
| `FormModel.LastWriteWins` | src/index.js:57-181 | after any sequence of events, each field holds the value of the last event that wrote it: a change (the checked flag for a checkbox), a `setFieldValue`, or a reset to the initial snapshot; with no such event it keeps its starting value |
| `FormModel.ResetRestoresConstruction` | src/index.js:174-181 | after any sequence of events from construction, reset restores exactly the construction values and empties `touched` and `errors` |
| `FormModel.StepKeepsErrorsEmptyOrCurrent` | src/index.js:57-181 | every updater keeps `errors` either empty or equal to the validator's verdict on the current values |
| `FormModel.RunKeepsErrorsEmptyOrCurrent` | src/index.js:24-181 | over any sequence of events from construction, `errors` is always either empty or exactly the validator's verdict on the current values |
| `FormModel.ErrorsFollowLastEdit` | src/index.js:42-111 | after a run ending in a change, blur or `setFieldValue`, `errors` equals the validator's verdict on the current values |
| `TodoForm.FormErrors` | src/index.js:207-221 | only `description` and `state` can carry an error |
| `TodoForm.ComputeFormErrors` | src/index.js:207-221 | filling the errors dictionary one check at a time yields exactly `FormErrors` |
| `TodoForm.FormErrorsMessages` | src/index.js:210-218 | a falsy description gives "Description required"; a string description shorter than 6 gives "Description must have at least 6 characters"; otherwise no description error; a falsy state gives "State required", and only then is there a state error |
| `TodoForm.FormErrorsEmptyIff` | src/index.js:207-221 | the result is empty exactly when the description is truthy and not a string shorter than 6, and the state is truthy |
| `TodoForm.FormErrorsEmptyForStrings` | src/index.js:207-221 | for string fields, the result is empty exactly when the description has at least 6 characters and the state is non-empty |
| `TodoForm.ValidateStatus` | src/index.js:223-227 | no status exactly when the touched flag is missing or false; "error" exactly when touched and the field has a non-empty message; "success" otherwise |
| `TodoForm.NoStatusIffUntouched` | src/index.js:223-227 | when no touched flag is `false` (every reachable state), a field shows no status exactly when it was never touched |
| `TodoForm.StatusAfterReset` | src/index.js:223-227 | after reset no field shows a status |
| `TodoForm.StatusAfterSubmitStarted` | src/index.js:223-227 | once a submit starts, every field in `values` shows a status |
| `TodoForm.StatusAfterSetFieldValue` | src/index.js:223-227 | after `setFieldValue` the field shows "error" or "success" according to the validator's verdict on the new values |
| `TodoForm.IsValidAfterChange` | src/index.js:37-40 | with `formErrors`, `isValid` after a change is true exactly when the edited values break a rule |
| `TodoForm.ScenarioRejectedSubmit` | src/index.js:200-221 | from the todo form's initial values: "hi" yields the too-short error, "hello!" clears it, and a submit with an empty state does not invoke the action, reports "State required" and clears the flag |
| `TodoForm.ScenarioAcceptedSubmit` | src/index.js:200-221 | after a valid description and state "active", a submit invokes the action once with the four current values, and settling clears the flag |
| `Controller.FormController.constructor` | src/index.js:17-35 | the state starts as a fresh record built from the name and initial values; the persistence effect writes it when persistence is on |
| `Controller.FormController.OnChange` | src/index.js:54-73 | the state becomes `OnChange` of the old state; the invocation log and in-flight count are unchanged; the new state is persisted when persistence is on |
| `Controller.FormController.OnBlur` | src/index.js:75-91 | the state becomes `OnBlur` of the old state; the rest as for a change |
| `Controller.FormController.SetFieldValue` | src/index.js:93-111 | the state becomes `SetFieldValue` of the old state; the rest as for a change |
| `Controller.FormController.BeginSubmit` | src/index.js:159-172 | the state becomes `TouchAllFieldsOnSubmit` of the old state, computed by the key-by-key loop |
| `Controller.FormController.Decide` | src/index.js:116-141 | the state follows `Decide`; an invocation appends the old values to the invocation log and adds one in-flight action; only a rejected submit persists |
| `Controller.FormController.Settle` | src/index.js:121-133 | the state follows `Settle`; one in-flight action fewer |
| `Controller.FormController.OnSubmit` | src/index.js:113-157 | a submit is a begin step followed by a decide step; the begun state is persisted, and then the rejected state when validation fails |
| `Controller.FormController.Reset` | src/index.js:174-181 | the state becomes `Reset` of the old state, whose values are the construction values |
| `Controller.FormController.IsValid` | src/index.js:37-40 | returns true exactly when the current errors map is non-empty |
| `Controller.FormController.FieldStatus` | src/index.js:223-227 | the status rendered for a field: none exactly when it was never touched (the class invariant rules out a `false` flag), "error" exactly when touched with a non-empty message |

## Left out

- Rendering: `TodoListForm`, `App`, the antd widgets, CSS and mounting are UI (src/index.js:1-6, 229-359). The todo form's initial values and its use of `formErrors` are kept.
- Persistence: the `localStorage` write in the effect is browser I/O. It is recorded only as a ghost map of what was written under the form's name. JSON serialisation is not modelled.
- Promises and timers: the `Promise` around validation, the `.then`/`.catch` chains and the demo's 3-second delay are replaced by the discrete begin, decide and settle steps. Interleavings of other events between those steps are possible in the controller, but the model does not reason about scheduling.
- React memoisation and stale closures are not modelled. `submitform` validates the render-time snapshot and writes its `errors` in place (src/index.js:117, 46). The model validates the current values and lets only the updaters change the state.
- The shared module-level `formState` template and its aliasing at construction (src/index.js:8-15, 24-29) are not modelled. Construction builds a fresh record, and value semantics keep `initialState` from being changed through `values`.
- Event objects: `event.persist()` and `preventDefault` are not modelled. A change is the target's name, type, value and checked flag; a blur is a field name.
- Values: a `Value` is a string or a boolean. Other JavaScript values an input could hold (numbers, arrays) are not modelled.
- String length is the Dafny sequence length, not the UTF-16 length.
- Controller.FormController.Settle: requires an in-flight action, because in the source a settle only happens as the continuation of an invoked action.
- Throwing validators: the validator is assumed never to throw (a Dafny function is total). In the source a throw inside the `Promise` executor (src/index.js:44-49) becomes an unhandled rejection. A change, blur or `setFieldValue` then keeps the previous `errors`, because the assignment at src/index.js:46 never runs. A submit then never reaches its `.then` (src/index.js:117), so `isSubmitting` stays true.
- Throwing submit actions: a submit action that throws synchronously (src/index.js:121) also leaves `isSubmitting` true. The model can show this only as an invocation that is never followed by `Settle`.
