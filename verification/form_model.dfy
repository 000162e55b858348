/** The form-state controller of the `useForm` hook: the state record, the
    updater functions that map the previous state to the next one, the
    discrete steps of a submit, and what a run of events does to the state. */
module FormModel {

  /** A field value: text inputs, selects and radio groups hold strings,
      a checkbox holds its checked flag. */
  datatype Value = Str(s: string) | Bool(b: bool)

  type Values = map<string, Value>
  type Errors = map<string, string>

  /** The caller-supplied validator: a pure function of the current values
      that maps each invalid field to a message. */
  type Validator = Values -> Errors

  datatype Option<T> = None | Some(value: T)

  function Lookup<K, V>(m: map<K, V>, k: K): Option<V>
  {
    if k in m then Some(m[k]) else None
  }

  /** The hook's whole state. */
  datatype FormState = FormState(
    name: string,
    initialState: Values,
    values: Values,
    touched: map<string, bool>,
    errors: Errors,
    isSubmitting: bool)

  /** `m2` is `m1` with `key` bound to `v`, and no other key added, dropped or changed. */
  ghost predicate UpdatedAt<V>(m1: map<string, V>, m2: map<string, V>, key: string, v: V)
  {
    && key in m2 && m2[key] == v
    && m2.Keys == m1.Keys + {key}
    && forall k :: k in m1 && k != key ==> m2[k] == m1[k]
  }

  /** `errors` is either empty (as construction and reset leave it) or the
      validator's verdict on the current values. */
  ghost predicate ErrorsEmptyOrCurrent(validate: Validator, s: FormState)
  {
    s.errors == map[] || s.errors == validate(s.values)
  }

  /** Every recorded touched flag is `true`: no updater ever stores `false`. */
  ghost predicate TouchedAllTrue(s: FormState)
  {
    forall k :: k in s.touched ==> s.touched[k]
  }

  /** Construction: a fresh record from the form's name and initial values. */
  function Init(name: string, initialState: Values): (s: FormState)
    ensures s.name == name && s.initialState == initialState
    ensures Reset(s) == s && !s.isSubmitting
  {
    FormState(name, initialState, initialState, map[], map[], false)
  }

  /** One validation pass: `errors` is replaced wholesale by the validator's
      verdict on the current values; nothing else changes. */
  function Validated(validate: Validator, s: FormState): (r: FormState)
    ensures r.errors == validate(s.values)
    ensures r.(errors := s.errors) == s
  {
    s.(errors := validate(s.values))
  }

  /** What a change event carries: the target's name, input type, value and checked flag. */
  datatype ChangeEvent = ChangeEvent(name: string, inputType: string, value: string, checked: bool)

  /** A checkbox stores its checked flag, any other input its value. */
  function StoredValue(ev: ChangeEvent): (v: Value)
    ensures v.Bool? <==> ev.inputType == "checkbox"
    ensures v == Str(ev.value) || v == Bool(ev.checked)
  {
    if ev.inputType == "checkbox" then Bool(ev.checked) else Str(ev.value)
  }

  function OnChange(validate: Validator, s: FormState, ev: ChangeEvent): (r: FormState)
    ensures UpdatedAt(s.values, r.values, ev.name, StoredValue(ev))
    ensures r.errors == validate(r.values)
    ensures r.touched == s.touched && r.isSubmitting == s.isSubmitting
    ensures r.name == s.name && r.initialState == s.initialState
  {
    Validated(validate, s.(values := s.values[ev.name := StoredValue(ev)]))
  }

  function OnBlur(validate: Validator, s: FormState, field: string): (r: FormState)
    ensures UpdatedAt(s.touched, r.touched, field, true)
    ensures r.errors == validate(s.values)
    ensures r.(touched := s.touched, errors := s.errors) == s
  {
    Validated(validate, s.(touched := s.touched[field := true]))
  }

  function SetFieldValue(validate: Validator, s: FormState, field: string, v: Value): (r: FormState)
    ensures UpdatedAt(s.values, r.values, field, v)
    ensures UpdatedAt(s.touched, r.touched, field, true)
    ensures r.errors == validate(r.values)
    ensures r.(values := s.values, touched := s.touched, errors := s.errors) == s
  {
    Validated(validate, s.(values := s.values[field := v], touched := s.touched[field := true]))
  }

  /** The touched map built on submit: every key of `values`, mapped to `true`. */
  function AllTouched(values: Values): (t: map<string, bool>)
    ensures t.Keys == values.Keys
    ensures forall k :: k in t ==> t[k]
  {
    map k | k in values :: true
  }

  /** Builds the touched map one key at a time, as the reduce over the keys does. */
  method MarkAllFieldsAsTouched(values: Values) returns (obj: map<string, bool>)
    ensures obj == AllTouched(values)
  {
    obj := map[];
    var keys := values.Keys;
    while keys != {}
      invariant keys <= values.Keys
      invariant obj.Keys == values.Keys - keys
      invariant forall k :: k in obj ==> obj[k]
      decreases keys
    {
      var k :| k in keys;
      obj := obj[k := true];
      keys := keys - {k};
    }
  }

  function TouchAllFieldsOnSubmit(s: FormState): (r: FormState)
    ensures r.touched.Keys == s.values.Keys
    ensures forall k :: k in r.touched ==> r.touched[k]
    ensures r.isSubmitting
    ensures r.(touched := s.touched, isSubmitting := s.isSubmitting) == s
  {
    s.(touched := AllTouched(s.values), isSubmitting := true)
  }

  function Reset(s: FormState): (r: FormState)
    ensures r.values == s.initialState
    ensures r.touched == map[] && r.errors == map[]
    ensures r.(values := s.values, touched := s.touched, errors := s.errors) == s
  {
    s.(values := s.initialState, errors := map[], touched := map[])
  }

  /** The hook's `isValid`: true when there is at least one error, despite its name. */
  function IsValid(s: FormState): (r: bool)
    ensures r <==> exists k :: k in s.errors
  {
    s.errors != map[]
  }

  /** The state after the validation step of a submit, and the values the
      submit action was invoked with, if it was. */
  datatype Decision = Decision(next: FormState, invoked: Option<Values>)

  /** The validation step of a submit (the `.then` of the validation promise). */
  function Decide(validate: Validator, hasAction: bool, s: FormState): (d: Decision)
    ensures d.invoked.Some? <==> hasAction && validate(s.values) == map[]
    ensures d.invoked.Some? ==> d.invoked.value == s.values
    ensures hasAction && validate(s.values) != map[] ==>
              d.next.errors == validate(s.values) && !d.next.isSubmitting
              && d.next.(errors := s.errors, isSubmitting := s.isSubmitting) == s
    ensures !(hasAction && validate(s.values) != map[]) ==> d.next == s
  {
    if !hasAction then
      Decision(s, None)
    else
      var errors := validate(s.values);
      if |errors| == 0 then
        Decision(s, Some(s.values))
      else
        Decision(s.(errors := errors, isSubmitting := false), None)
  }

  /** How the submit action ended; both outcomes are handled the same way. */
  datatype Outcome = Resolved | Rejected

  /** The `.then`/`.catch` updater once the submit action settles. */
  function Settle(s: FormState, outcome: Outcome): (r: FormState)
    ensures !r.isSubmitting
    ensures r.(isSubmitting := s.isSubmitting) == s
  {
    match outcome
    case Resolved => s.(isSubmitting := false)
    case Rejected => s.(isSubmitting := false)
  }

  /** The inputs the controller reacts to, one per updater. */
  datatype Event =
    | Changed(ev: ChangeEvent)
    | Blurred(field: string)
    | FieldSet(field: string, v: Value)
    | SubmitStarted
    | SubmitDecided
    | SubmitSettled(outcome: Outcome)
    | ResetRequested

  function Step(validate: Validator, hasAction: bool, s: FormState, e: Event): FormState
  {
    match e
    case Changed(ev) => OnChange(validate, s, ev)
    case Blurred(f) => OnBlur(validate, s, f)
    case FieldSet(f, v) => SetFieldValue(validate, s, f, v)
    case SubmitStarted => TouchAllFieldsOnSubmit(s)
    case SubmitDecided => Decide(validate, hasAction, s).next
    case SubmitSettled(o) => Settle(s, o)
    case ResetRequested => Reset(s)
  }

  /** The state after applying `evs` in order, starting from `s`. */
  function Run(validate: Validator, hasAction: bool, s: FormState, evs: seq<Event>): FormState
    decreases |evs|
  {
    if evs == [] then s
    else Step(validate, hasAction, Run(validate, hasAction, s, evs[..|evs| - 1]), evs[|evs| - 1])
  }

  /** Reference meaning of "the last write wins": the value of `field` after
      `evs`, found by reading the events backwards to the last one that wrote it. */
  function ValueAfter(s: FormState, evs: seq<Event>, field: string): Option<Value>
    decreases |evs|
  {
    if evs == [] then Lookup(s.values, field)
    else
      var before := evs[..|evs| - 1];
      match evs[|evs| - 1]
      case Changed(ev) => if ev.name == field then Some(StoredValue(ev)) else ValueAfter(s, before, field)
      case FieldSet(f, v) => if f == field then Some(v) else ValueAfter(s, before, field)
      case ResetRequested => Lookup(s.initialState, field)
      case _ => ValueAfter(s, before, field)
  }

  // ---------------------------------------------------------------------
  // Properties of single transitions

  /** A validation pass is idempotent. */
  lemma ValidatedIdempotent(validate: Validator, s: FormState)
    ensures Validated(validate, Validated(validate, s)) == Validated(validate, s)
  {
  }

  /** `setFieldValue` is a change followed by a blur of the same field. */
  lemma SetFieldValueIsChangeThenBlur(validate: Validator, s: FormState, ev: ChangeEvent)
    ensures SetFieldValue(validate, s, ev.name, StoredValue(ev))
         == OnBlur(validate, OnChange(validate, s, ev), ev.name)
  {
  }

  /** Changes to two different fields commute. */
  lemma ChangesOnDistinctFieldsCommute(validate: Validator, s: FormState, e1: ChangeEvent, e2: ChangeEvent)
    requires e1.name != e2.name
    ensures OnChange(validate, OnChange(validate, s, e1), e2)
         == OnChange(validate, OnChange(validate, s, e2), e1)
  {
    var v1 := s.values[e1.name := StoredValue(e1)][e2.name := StoredValue(e2)];
    var v2 := s.values[e2.name := StoredValue(e2)][e1.name := StoredValue(e1)];
    assert v1 == v2;
  }

  /** Applying `reset` twice is the same as applying it once. */
  lemma ResetIdempotent(s: FormState)
    ensures Reset(Reset(s)) == Reset(s)
  {
  }

  /** Blurring a field twice is the same as blurring it once. */
  lemma BlurIdempotent(validate: Validator, s: FormState, field: string)
    ensures OnBlur(validate, OnBlur(validate, s, field), field) == OnBlur(validate, s, field)
  {
    assert s.touched[field := true][field := true] == s.touched[field := true];
  }

  /** Every updater keeps the touched flags all `true`. */
  lemma StepKeepsTouchedTrue(validate: Validator, hasAction: bool, s: FormState, e: Event)
    requires TouchedAllTrue(s)
    ensures TouchedAllTrue(Step(validate, hasAction, s, e))
  {
  }

  /** The full submit when an action is supplied: on failed validation the
      errors are stored, the flag is cleared and the action is not invoked;
      on success the action is invoked once with the values, and settling
      (either way) clears only the flag. */
  lemma SubmitOutcome(validate: Validator, s: FormState, outcome: Outcome)
    ensures var started := TouchAllFieldsOnSubmit(s);
            var d := Decide(validate, true, started);
            && d.next.values == s.values
            && d.next.touched == AllTouched(s.values)
            && (validate(s.values) != map[] ==>
                  d.invoked == None && d.next.errors == validate(s.values) && !d.next.isSubmitting)
            && (validate(s.values) == map[] ==>
                  && d.invoked == Some(s.values) && d.next.isSubmitting
                  && Settle(d.next, outcome) == started.(isSubmitting := false))
  {
  }

  /** Without a submit action the flag set by the submit is never cleared. */
  lemma SubmitWithoutActionStaysSubmitting(validate: Validator, s: FormState)
    ensures var d := Decide(validate, false, TouchAllFieldsOnSubmit(s));
            d.invoked == None && d.next.isSubmitting && d.next.errors == s.errors
  {
  }

  /** Both outcomes of the submit action lead to the same state. */
  lemma SettleIgnoresOutcome(s: FormState)
    ensures Settle(s, Resolved) == Settle(s, Rejected)
  {
  }

  // ---------------------------------------------------------------------
  // Properties of runs of events

  /** `name` and `initialState` are never changed by any sequence of events. */
  lemma {:induction false} RunKeepsIdentity(validate: Validator, hasAction: bool, s: FormState, evs: seq<Event>)
    ensures Run(validate, hasAction, s, evs).name == s.name
    ensures Run(validate, hasAction, s, evs).initialState == s.initialState
    decreases |evs|
  {
    if evs != [] {
      RunKeepsIdentity(validate, hasAction, s, evs[..|evs| - 1]);
    }
  }

  /** Touched flags stay all `true` over any sequence of events. */
  lemma {:induction false} RunKeepsTouchedTrue(validate: Validator, hasAction: bool, s: FormState, evs: seq<Event>)
    requires TouchedAllTrue(s)
    ensures TouchedAllTrue(Run(validate, hasAction, s, evs))
    decreases |evs|
  {
    if evs != [] {
      var before := evs[..|evs| - 1];
      RunKeepsTouchedTrue(validate, hasAction, s, before);
      StepKeepsTouchedTrue(validate, hasAction, Run(validate, hasAction, s, before), evs[|evs| - 1]);
    }
  }

  /** The value of every field after any sequence of events is the one the
      last writing event gave it: a change (the checked flag for a checkbox),
      a `setFieldValue`, or a reset to the initial snapshot; with no such
      event it is the value it had at the start. */
  lemma {:induction false} LastWriteWins(validate: Validator, hasAction: bool, s: FormState, evs: seq<Event>, field: string)
    ensures Lookup(Run(validate, hasAction, s, evs).values, field) == ValueAfter(s, evs, field)
    decreases |evs|
  {
    if evs != [] {
      var before := evs[..|evs| - 1];
      LastWriteWins(validate, hasAction, s, before, field);
      if evs[|evs| - 1].ResetRequested? {
        RunKeepsIdentity(validate, hasAction, s, before);
      }
    }
  }

  /** After any sequence of events, `reset` restores exactly the values the
      form was constructed with. */
  lemma {:induction false} ResetRestoresConstruction(validate: Validator, hasAction: bool, name: string, initial: Values, evs: seq<Event>)
    ensures var r := Reset(Run(validate, hasAction, Init(name, initial), evs));
            r.values == initial && r.touched == map[] && r.errors == map[] && r.name == name
  {
    RunKeepsIdentity(validate, hasAction, Init(name, initial), evs);
  }

  /** After any run that ends in a change, blur or `setFieldValue`, the errors
      are exactly the validator's verdict on the current values. */
  lemma ErrorsFollowLastEdit(validate: Validator, hasAction: bool, s: FormState, evs: seq<Event>)
    requires evs != [] && (evs[|evs| - 1].Changed? || evs[|evs| - 1].Blurred? || evs[|evs| - 1].FieldSet?)
    ensures var r := Run(validate, hasAction, s, evs); r.errors == validate(r.values)
  {
  }

  /** Every updater keeps `errors` either empty or current. */
  lemma StepKeepsErrorsEmptyOrCurrent(validate: Validator, hasAction: bool, s: FormState, e: Event)
    requires ErrorsEmptyOrCurrent(validate, s)
    ensures ErrorsEmptyOrCurrent(validate, Step(validate, hasAction, s, e))
  {
  }

  /** Over any run from construction, `errors` is always either empty or
      exactly the validator's verdict on the current values: no updater ever
      leaves a verdict on values that have since changed. */
  lemma {:induction false} RunKeepsErrorsEmptyOrCurrent(validate: Validator, hasAction: bool, name: string, initial: Values, evs: seq<Event>)
    ensures ErrorsEmptyOrCurrent(validate, Run(validate, hasAction, Init(name, initial), evs))
    decreases |evs|
  {
    if evs != [] {
      var before := evs[..|evs| - 1];
      RunKeepsErrorsEmptyOrCurrent(validate, hasAction, name, initial, before);
      StepKeepsErrorsEmptyOrCurrent(validate, hasAction, Run(validate, hasAction, Init(name, initial), before), evs[|evs| - 1]);
    }
  }
}
