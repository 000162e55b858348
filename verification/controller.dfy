/** The `useForm` hook as an object: one mutable state cell that every
    operation replaces through the updaters of FormModel, the submit action's
    invocations, and the writes of the persistence effect. */
module Controller {
  import opened FormModel
  import TodoForm

  class FormController {
    const name: string
    const initialState: Values
    const validate: Validator
    /** Whether a submit action was supplied (`if (submit)`). */
    const hasAction: bool
    const isPersisted: bool

    var state: FormState
    /** Submit actions invoked and not yet settled. */
    var inFlight: nat
    /** The values each invocation of the submit action received, in order. */
    ghost var invocations: seq<Values>
    /** What the persistence effect has written, keyed by form name. */
    ghost var storage: map<string, FormState>

    /** The record's identity is fixed at construction, and no touched flag is ever `false`. */
    ghost predicate Valid()
      reads this
    {
      && state.name == name
      && state.initialState == initialState
      && TouchedAllTrue(state)
    }

    /** The persistence effect after the state became `s`. */
    ghost function Written(before: map<string, FormState>, s: FormState): map<string, FormState>
    {
      if isPersisted then before[s.name := s] else before
    }

    constructor (name: string, initialState: Values, validate: Validator, hasAction: bool, isPersisted: bool)
      ensures Valid()
      ensures this.name == name && this.initialState == initialState && this.validate == validate
      ensures this.hasAction == hasAction && this.isPersisted == isPersisted
      ensures state == Init(name, initialState)
      ensures inFlight == 0 && invocations == []
      ensures storage == Written(map[], Init(name, initialState))
    {
      this.name := name;
      this.initialState := initialState;
      this.validate := validate;
      this.hasAction := hasAction;
      this.isPersisted := isPersisted;
      state := Init(name, initialState);
      inFlight := 0;
      invocations := [];
      storage := if isPersisted then map[name := Init(name, initialState)] else map[];
    }

    method OnChange(ev: ChangeEvent)
      requires Valid()
      modifies this
      ensures Valid()
      ensures state == FormModel.OnChange(validate, old(state), ev)
      ensures inFlight == old(inFlight) && invocations == old(invocations)
      ensures storage == Written(old(storage), state)
    {
      var values := state.values[ev.name := StoredValue(ev)];
      state := state.(values := values, errors := validate(values));
      storage := Written(storage, state);
    }

    method OnBlur(field: string)
      requires Valid()
      modifies this
      ensures Valid()
      ensures state == FormModel.OnBlur(validate, old(state), field)
      ensures inFlight == old(inFlight) && invocations == old(invocations)
      ensures storage == Written(old(storage), state)
    {
      state := state.(touched := state.touched[field := true], errors := validate(state.values));
      storage := Written(storage, state);
    }

    method SetFieldValue(field: string, v: Value)
      requires Valid()
      modifies this
      ensures Valid()
      ensures state == FormModel.SetFieldValue(validate, old(state), field, v)
      ensures inFlight == old(inFlight) && invocations == old(invocations)
      ensures storage == Written(old(storage), state)
    {
      var values := state.values[field := v];
      state := state.(values := values, touched := state.touched[field := true], errors := validate(values));
      storage := Written(storage, state);
    }

    /** First step of a submit: touch every field and raise the flag. */
    method BeginSubmit()
      requires Valid()
      modifies this
      ensures Valid()
      ensures state == TouchAllFieldsOnSubmit(old(state))
      ensures inFlight == old(inFlight) && invocations == old(invocations)
      ensures storage == Written(old(storage), state)
    {
      var touched := MarkAllFieldsAsTouched(state.values);
      state := state.(touched := touched, isSubmitting := true);
      storage := Written(storage, state);
    }

    /** Second step of a submit: validate, then either store the errors or
        invoke the action with the current values. */
    method Decide() returns (invoked: bool)
      requires Valid()
      modifies this
      ensures Valid()
      ensures var d := FormModel.Decide(validate, hasAction, old(state));
              && state == d.next
              && invoked == d.invoked.Some?
              && invocations == old(invocations) + (if invoked then [old(state).values] else [])
              && inFlight == old(inFlight) + (if invoked then 1 else 0)
              && storage == (if hasAction && !invoked then Written(old(storage), state) else old(storage))
    {
      invoked := false;
      if hasAction {
        var errors := validate(state.values);
        if |errors| == 0 {
          invoked := true;
          invocations := invocations + [state.values];
          inFlight := inFlight + 1;
        } else {
          state := state.(errors := errors, isSubmitting := false);
          storage := Written(storage, state);
        }
      }
    }

    /** Third step of a submit: the action settled, whichever way. */
    method Settle(outcome: Outcome)
      requires Valid() && inFlight > 0
      modifies this
      ensures Valid()
      ensures state == FormModel.Settle(old(state), outcome)
      ensures inFlight == old(inFlight) - 1 && invocations == old(invocations)
      ensures storage == Written(old(storage), state)
    {
      state := state.(isSubmitting := false);
      inFlight := inFlight - 1;
      storage := Written(storage, state);
    }

    /** `onSubmit`: the first two steps of a submit, run back to back. */
    method OnSubmit() returns (invoked: bool)
      requires Valid()
      modifies this
      ensures Valid()
      ensures var d := FormModel.Decide(validate, hasAction, TouchAllFieldsOnSubmit(old(state)));
              && state == d.next
              && invoked == d.invoked.Some?
              && invocations == old(invocations) + (if invoked then [old(state).values] else [])
              && inFlight == old(inFlight) + (if invoked then 1 else 0)
      ensures var begun := TouchAllFieldsOnSubmit(old(state));
              storage == (if hasAction && !invoked then Written(Written(old(storage), begun), state)
                          else Written(old(storage), begun))
    {
      BeginSubmit();
      invoked := Decide();
    }

    method Reset()
      requires Valid()
      modifies this
      ensures Valid()
      ensures state == FormModel.Reset(old(state))
      ensures state.values == initialState
      ensures inFlight == old(inFlight) && invocations == old(invocations)
      ensures storage == Written(old(storage), state)
    {
      state := state.(values := initialState, errors := map[], touched := map[]);
      storage := Written(storage, state);
    }

    /** `isValid`: whether the current errors map has at least one entry. */
    method IsValid() returns (r: bool)
      requires Valid()
      ensures r <==> state.errors != map[]
    {
      r := |state.errors| > 0;
    }

    /** The status the form renders for `field`: since no touched flag is ever
        `false`, a field shows no status exactly when it was never touched. */
    method FieldStatus(field: string) returns (st: TodoForm.Status)
      requires Valid()
      ensures st == TodoForm.NoStatus <==> field !in state.touched
      ensures st == TodoForm.ErrorStatus <==> field in state.touched && field in state.errors && state.errors[field] != ""
    {
      st := TodoForm.ValidateStatus(Lookup(state.touched, field), state.errors, field);
    }
  }

  /** The todo form driven through the controller: edits and submits on its
      initial values, checked against the controller's contracts alone. */
  method TodoListFormSession()
  {
    var form := new FormController("todolistform", TodoForm.TodoListFields(), TodoForm.FormErrors, true, false);

    form.OnChange(TodoForm.TextChange("description", "hi"));
    TodoForm.FormErrorsMessages(form.state.values);
    assert form.state.errors["description"] == TodoForm.DescriptionTooShort;
    var hasErrors := form.IsValid();
    assert hasErrors;

    form.OnChange(TodoForm.TextChange("description", "hello!"));
    TodoForm.FormErrorsMessages(form.state.values);
    assert "description" !in form.state.errors;

    var invoked := form.OnSubmit();
    TodoForm.FormErrorsMessages(form.state.values);
    assert !invoked && form.invocations == [];
    assert form.state.errors["state"] == TodoForm.StateRequired && !form.state.isSubmitting;

    form.SetFieldValue("state", Str("active"));
    ghost var submitted := form.state.values;
    TodoForm.FormErrorsEmptyForStrings(submitted, "hello!", "active");
    invoked := form.OnSubmit();
    assert invoked && form.invocations == [submitted] && form.state.isSubmitting;

    form.Settle(Resolved);
    assert !form.state.isSubmitting && form.inFlight == 0;

    form.Reset();
    assert form.state.values == TodoForm.TodoListFields() && form.state.errors == map[];
  }
}
