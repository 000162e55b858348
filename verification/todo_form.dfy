/** The todo form built on the controller: its validator `formErrors`, the
    `validateStatus` helper that turns a field's touched flag and errors into
    a feedback status, and edit-and-submit scenarios on the form's initial values. */
module TodoForm {
  import opened FormModel

  /** JavaScript truthiness of a possibly missing field: a missing key, the
      empty string and `false` are falsy. */
  predicate Truthy(v: Option<Value>)
  {
    match v
    case None => false
    case Some(Str(x)) => x != ""
    case Some(Bool(b)) => b
  }

  /** `value.length < 6`: a string compares its length; a boolean has no
      length, and `undefined < 6` is false. */
  predicate TooShort(v: Value)
  {
    v.Str? && |v.s| < 6
  }

  const DescriptionRequired := "Description required"
  const DescriptionTooShort := "Description must have at least 6 characters"
  const StateRequired := "State required"

  /** The rule for one field of the todo form: its message, if it is invalid. */
  function FieldRule(fields: Values, key: string): Option<string>
  {
    if key == "description" then
      var d := Lookup(fields, "description");
      if !Truthy(d) then Some(DescriptionRequired)
      else if TooShort(d.value) then Some(DescriptionTooShort)
      else None
    else if key == "state" then
      if !Truthy(Lookup(fields, "state")) then Some(StateRequired) else None
    else None
  }

  /** `formErrors`: every field of the form whose rule fails, with its message. */
  function FormErrors(fields: Values): (r: Errors)
    ensures r.Keys <= {"description", "state"}
  {
    map k | k in {"description", "state"} && FieldRule(fields, k).Some? :: FieldRule(fields, k).value
  }

  /** `formErrors` as written: a local dictionary filled one check at a time. */
  method ComputeFormErrors(fields: Values) returns (errors: Errors)
    ensures errors == FormErrors(fields)
  {
    errors := map[];
    var description := Lookup(fields, "description");
    if !Truthy(description) {
      errors := errors["description" := DescriptionRequired];
    } else if TooShort(description.value) {
      errors := errors["description" := DescriptionTooShort];
    }
    if !Truthy(Lookup(fields, "state")) {
      errors := errors["state" := StateRequired];
    }
    assert errors.Keys == FormErrors(fields).Keys;
  }

  /** The messages `formErrors` gives, case by case. */
  lemma FormErrorsMessages(fields: Values)
    ensures var r := FormErrors(fields);
            && (!Truthy(Lookup(fields, "description")) ==>
                  "description" in r && r["description"] == DescriptionRequired)
            && (Truthy(Lookup(fields, "description")) && TooShort(fields["description"]) ==>
                  "description" in r && r["description"] == DescriptionTooShort)
            && (Truthy(Lookup(fields, "description")) && !TooShort(fields["description"]) ==>
                  "description" !in r)
            && (!Truthy(Lookup(fields, "state")) <==> "state" in r)
            && ("state" in r ==> r["state"] == StateRequired)
  {
  }

  /** `formErrors` finds nothing exactly when the description is present and
      not a string shorter than six characters, and the state is present. */
  lemma FormErrorsEmptyIff(fields: Values)
    ensures FormErrors(fields) == map[] <==>
              && Truthy(Lookup(fields, "description"))
              && !TooShort(fields["description"])
              && Truthy(Lookup(fields, "state"))
  {
    var r := FormErrors(fields);
    if FieldRule(fields, "description").Some? {
      assert "description" in r;
    }
    if FieldRule(fields, "state").Some? {
      assert "state" in r;
    }
  }

  /** For string fields: valid exactly when the description has at least six
      characters and the state is not empty. */
  lemma FormErrorsEmptyForStrings(fields: Values, description: string, state: string)
    requires Lookup(fields, "description") == Some(Str(description))
    requires Lookup(fields, "state") == Some(Str(state))
    ensures FormErrors(fields) == map[] <==> |description| >= 6 && state != ""
  {
    FormErrorsEmptyIff(fields);
  }

  /** The feedback a field shows: `null`, `"error"` or `"success"`. */
  datatype Status = NoStatus | ErrorStatus | SuccessStatus

  /** `validateStatus`: no status for a field not (truthily) touched, an error
      when it has a non-empty message, success otherwise. */
  function ValidateStatus(touched: Option<bool>, errors: Errors, field: string): (r: Status)
    ensures r == NoStatus <==> touched != Some(true)
    ensures r == ErrorStatus <==> touched == Some(true) && field in errors && errors[field] != ""
  {
    if touched != Some(true) then NoStatus
    else if field in errors && errors[field] != "" then ErrorStatus
    else SuccessStatus
  }

  /** The status the form renders for `field` in state `s`. */
  function FieldStatus(s: FormState, field: string): Status
  {
    ValidateStatus(Lookup(s.touched, field), s.errors, field)
  }

  /** In a state whose touched flags are all `true` (every reachable state),
      a field shows no status exactly when it was never touched. */
  lemma NoStatusIffUntouched(s: FormState, field: string)
    requires TouchedAllTrue(s)
    ensures FieldStatus(s, field) == NoStatus <==> field !in s.touched
  {
  }

  /** After a reset no field shows any feedback. */
  lemma StatusAfterReset(s: FormState, field: string)
    ensures FieldStatus(Reset(s), field) == NoStatus
  {
  }

  /** After a submit starts every field of the form shows feedback. */
  lemma StatusAfterSubmitStarted(s: FormState, field: string)
    requires field in s.values
    ensures FieldStatus(TouchAllFieldsOnSubmit(s), field) != NoStatus
  {
  }

  /** After `setFieldValue` the field shows the validator's verdict on the new values. */
  lemma StatusAfterSetFieldValue(validate: Validator, s: FormState, field: string, v: Value)
    ensures var r := SetFieldValue(validate, s, field, v);
            FieldStatus(r, field) ==
              if field in validate(r.values) && validate(r.values)[field] != "" then ErrorStatus else SuccessStatus
  {
  }

  /** With `formErrors` as validator, `isValid` after an edit is true exactly
      when the edited form fails one of the rules. */
  lemma IsValidAfterChange(s: FormState, ev: ChangeEvent)
    ensures var r := OnChange(FormErrors, s, ev);
            IsValid(r) <==>
              !(Truthy(Lookup(r.values, "description")) && !TooShort(r.values["description"])
                && Truthy(Lookup(r.values, "state")))
  {
    var r := OnChange(FormErrors, s, ev);
    FormErrorsEmptyIff(r.values);
  }

  // ---------------------------------------------------------------------
  // Edit-and-submit scenarios on the todo form's initial values

  /** The todo form's initial values. */
  function TodoListFields(): Values
  {
    map["description" := Str(""), "state" := Str(""), "checkbox_value" := Bool(false), "radio_value" := Str("a")]
  }

  function TextChange(name: string, value: string): ChangeEvent
  {
    ChangeEvent(name, "text", value, false)
  }

  /** A two-character description is rejected as too short; six characters
      clear the description error; submitting with an empty state does not
      invoke the action and reports the missing state. */
  lemma ScenarioRejectedSubmit()
    ensures var s0 := Init("todolistform", TodoListFields());
            var s1 := OnChange(FormErrors, s0, TextChange("description", "hi"));
            var s2 := OnChange(FormErrors, s1, TextChange("description", "hello!"));
            var d := Decide(FormErrors, true, TouchAllFieldsOnSubmit(s2));
            && s1.values["description"] == Str("hi")
            && "description" in s1.errors && s1.errors["description"] == DescriptionTooShort
            && "description" !in s2.errors
            && d.invoked == None
            && "state" in d.next.errors && d.next.errors["state"] == StateRequired
            && !d.next.isSubmitting
  {
    var s0 := Init("todolistform", TodoListFields());
    var s1 := OnChange(FormErrors, s0, TextChange("description", "hi"));
    var s2 := OnChange(FormErrors, s1, TextChange("description", "hello!"));
    FormErrorsMessages(s1.values);
    FormErrorsMessages(s2.values);
    assert "state" in FormErrors(s2.values);
  }

  /** Once the state is set, submitting invokes the action once with the
      current values, and settling clears the flag. */
  lemma ScenarioAcceptedSubmit(outcome: Outcome)
    ensures var s0 := Init("todolistform", TodoListFields());
            var s1 := OnChange(FormErrors, s0, TextChange("description", "hello!"));
            var s2 := SetFieldValue(FormErrors, s1, "state", Str("active"));
            var d := Decide(FormErrors, true, TouchAllFieldsOnSubmit(s2));
            && d.invoked == Some(map["description" := Str("hello!"), "state" := Str("active"),
                                     "checkbox_value" := Bool(false), "radio_value" := Str("a")])
            && !Settle(d.next, outcome).isSubmitting
  {
    var s0 := Init("todolistform", TodoListFields());
    var s1 := OnChange(FormErrors, s0, TextChange("description", "hello!"));
    var s2 := SetFieldValue(FormErrors, s1, "state", Str("active"));
    FormErrorsEmptyForStrings(s2.values, "hello!", "active");
    assert s2.values == map["description" := Str("hello!"), "state" := Str("active"),
                            "checkbox_value" := Bool(false), "radio_value" := Str("a")];
  }
}
