/**
 * `useForm` and the batch helpers `execValidators` / `execAsyncValidators`:
 * a field -> validator mapping run over a form's data, collecting the
 * non-empty messages into an error map.
 */
module UseForm {
  import opened Common
  import opened JsValues

  /** A form's data: field name -> value. */
  type Data = map<string, JsValue>

  /**
   * What a validator call ends in: a returned message (`undefined` as None)
   * or an exception. For an async validator, `Threw` is a rejected promise.
   */
  datatype Outcome = Returned(message: Option<string>) | Threw

  /** `(value, form) => string | undefined`; async validators are given by their settled outcome. */
  type FieldValidator = (JsValue, Data) -> Outcome

  /** `data[key]`, undefined when the field is missing. */
  function Field(data: Data, key: string): JsValue {
    if key in data then data[key] else JsValue.Undefined
  }

  /** Runs the validator of `key` on its field and the whole form. */
  function RunValidator(validations: map<string, FieldValidator>, key: string, data: Data): Outcome
    requires key in validations
  {
    validations[key](Field(data, key), data)
  }

  /** `if (errorMessage)`: a returned non-empty string is a failure. */
  predicate Fails(o: Outcome) {
    o.Returned? && o.message.Some? && o.message.value != ""
  }

  /** The message recorded when an async validator throws. */
  function ExceptionMessage(key: string): (m: string)
    ensures |m| > 43 + |key| && m[43..43 + |key|] == key
  {
    "An exception occurred while the validator [" + key + "] was running"
  }

  // ---------------------------------------------------------------- reference definitions

  /** The failing fields among `keys`, each with its message. */
  function SyncErrorsOn(data: Data, validations: map<string, FieldValidator>, keys: set<string>): map<string, string> {
    map k | k in keys && k in validations && Fails(RunValidator(validations, k, data)) :: RunValidator(validations, k, data).message.value
  }

  /** The failing fields of a full synchronous pass, each with its message. */
  function SyncErrors(data: Data, validations: map<string, FieldValidator>): map<string, string> {
    SyncErrorsOn(data, validations, validations.Keys)
  }

  /** Some validator of a field among `keys` throws. */
  predicate AnyThrowsOn(data: Data, validations: map<string, FieldValidator>, keys: set<string>) {
    exists k | k in keys && k in validations :: RunValidator(validations, k, data).Threw?
  }

  /** Some validator throws, so a synchronous pass throws. */
  predicate AnyThrows(data: Data, validations: map<string, FieldValidator>) {
    AnyThrowsOn(data, validations, validations.Keys)
  }

  /** What an async pass records for `key`: the exception message, the returned failure, or nothing. */
  function AsyncMessage(key: string, o: Outcome): (m: Option<string>)
    ensures m.Some? ==> m.value != ""
  {
    if o.Threw? then Some(ExceptionMessage(key))
    else if Fails(o) then Some(o.message.value)
    else None
  }

  function AsyncErrorsOn(data: Data, validations: map<string, FieldValidator>, keys: set<string>): map<string, string> {
    map k | k in keys && k in validations && AsyncMessage(k, RunValidator(validations, k, data)).Some? ::
      AsyncMessage(k, RunValidator(validations, k, data)).value
  }

  /** The fields an async pass records, each with its message. */
  function AsyncErrors(data: Data, validations: map<string, FieldValidator>): map<string, string> {
    AsyncErrorsOn(data, validations, validations.Keys)
  }

  /** Adding one field to a sync pass adds its failure, if any. */
  lemma SyncErrorsStep(data: Data, validations: map<string, FieldValidator>, done: set<string>, key: string)
    requires key in validations && key !in done
    ensures var o := RunValidator(validations, key, data);
            SyncErrorsOn(data, validations, done + {key}) ==
              if Fails(o) then SyncErrorsOn(data, validations, done)[key := o.message.value]
              else SyncErrorsOn(data, validations, done)
  {
  }

  /** Adding one field to a sync pass throws iff the pass so far threw or that field's validator throws. */
  lemma AnyThrowsStep(data: Data, validations: map<string, FieldValidator>, done: set<string>, key: string)
    requires key in validations
    ensures AnyThrowsOn(data, validations, done + {key}) <==>
              AnyThrowsOn(data, validations, done) || RunValidator(validations, key, data).Threw?
  {
  }

  /** A throw among some of the fields is a throw of the whole pass. */
  lemma ThrowsWithin(data: Data, validations: map<string, FieldValidator>, keys: set<string>)
    requires AnyThrowsOn(data, validations, keys)
    ensures AnyThrows(data, validations)
  {
  }

  /** Adding one field to an async pass adds what it records, if anything. */
  lemma AsyncErrorsStep(data: Data, validations: map<string, FieldValidator>, done: set<string>, key: string)
    requires key in validations && key !in done
    ensures var m := AsyncMessage(key, RunValidator(validations, key, data));
            AsyncErrorsOn(data, validations, done + {key}) ==
              if m.Some? then AsyncErrorsOn(data, validations, done)[key := m.value]
              else AsyncErrorsOn(data, validations, done)
  {
  }

  /** Moving one key from the pending set to the visited set keeps them a partition of `all`. */
  lemma MoveKey(done: set<string>, remaining: set<string>, all: set<string>, key: string)
    requires done + remaining == all && done !! remaining && key in remaining
    ensures (done + {key}) + (remaining - {key}) == all && (done + {key}) !! (remaining - {key})
    ensures |remaining - {key}| < |remaining|
  {
  }

  /** Every recorded message is non-empty and belongs to a validated field. */
  predicate WellFormedErrors(errors: map<string, string>, keys: set<string>) {
    errors.Keys <= keys && forall k | k in errors :: errors[k] != ""
  }

  /** Merging well-formed error maps over sub-sets of `keys` is well-formed over `keys`. */
  lemma MergeWellFormed(a: map<string, string>, b: map<string, string>, keys: set<string>)
    requires WellFormedErrors(a, keys) && WellFormedErrors(b, keys)
    ensures WellFormedErrors(a + b, keys)
  {
  }

  // ---------------------------------------------------------------- batch helpers

  /** `{ errors, valid, data }` */
  datatype ExecResult = ExecResult(errors: map<string, string>, valid: bool, data: Data)

  /** `execValidators(data, validations)`; a throwing validator makes the whole call throw. */
  method ExecValidators(data: Data, validations: map<string, FieldValidator>) returns (r: Result<ExecResult>)
    ensures r.Thrown? <==> AnyThrows(data, validations)
    ensures r.Ok? ==> r.value.errors == SyncErrors(data, validations)
    ensures r.Ok? ==> (r.value.valid <==> r.value.errors == map[]) && r.value.data == data
    ensures validations == map[] ==> r == Ok(ExecResult(map[], true, data))
  {
    if validations == map[] {
      assert validations == map[];
      assert SyncErrors(data, validations) == map[];
      return Ok(ExecResult(map[], true, data));
    }
    var isValid := true;
    var errors: map<string, string> := map[];
    var done: set<string> := {};
    var remaining := validations.Keys;
    while remaining != {}
      invariant done + remaining == validations.Keys && done !! remaining
      invariant !AnyThrowsOn(data, validations, done)
      invariant errors == SyncErrorsOn(data, validations, done)
      invariant isValid <==> errors == map[]
      decreases |remaining|
    {
      var key :| key in remaining;
      var outcome := RunValidator(validations, key, data);
      AnyThrowsStep(data, validations, done, key);
      if outcome.Threw? {
        ThrowsWithin(data, validations, done + {key});
        return Thrown;
      }
      SyncErrorsStep(data, validations, done, key);
      if Fails(outcome) {
        isValid := false;
        errors := errors[key := outcome.message.value];
        assert key in errors;
      }
      MoveKey(done, remaining, validations.Keys, key);
      done := done + {key};
      remaining := remaining - {key};
    }
    assert done == validations.Keys;
    r := Ok(ExecResult(errors, isValid, data));
  }

  /** `execAsyncValidators(data, asyncValidations)`, with every promise already settled. */
  method ExecAsyncValidators(data: Data, validations: map<string, FieldValidator>) returns (r: ExecResult)
    ensures r.errors == AsyncErrors(data, validations)
    ensures (r.valid <==> r.errors == map[]) && r.data == data
  {
    if validations == map[] {
      return ExecResult(map[], true, data);
    }
    var isValid := true;
    var errors: map<string, string> := map[];
    var done: set<string> := {};
    var remaining := validations.Keys;
    while remaining != {}
      invariant done + remaining == validations.Keys && done !! remaining
      invariant errors == AsyncErrorsOn(data, validations, done)
      invariant isValid <==> errors == map[]
      decreases |remaining|
    {
      var key :| key in remaining;
      var outcome := RunValidator(validations, key, data);
      AsyncErrorsStep(data, validations, done, key);
      if outcome.Threw? {
        isValid := false;
        errors := errors[key := ExceptionMessage(key)];
        assert key in errors;
      } else if Fails(outcome) {
        isValid := false;
        errors := errors[key := outcome.message.value];
        assert key in errors;
      }
      MoveKey(done, remaining, validations.Keys, key);
      done := done + {key};
      remaining := remaining - {key};
    }
    assert done == validations.Keys;
    r := ExecResult(errors, isValid, data);
  }

  // ---------------------------------------------------------------- properties of the passes

  /** Both passes record only non-empty messages of validated fields. */
  lemma ErrorsWellFormed(data: Data, validations: map<string, FieldValidator>)
    ensures WellFormedErrors(SyncErrors(data, validations), validations.Keys)
    ensures WellFormedErrors(AsyncErrors(data, validations), validations.Keys)
  {
  }

  /** When no validator throws, the async pass records exactly what the sync pass does. */
  lemma {:induction false} AsyncAgreesWithSync(data: Data, validations: map<string, FieldValidator>)
    requires !AnyThrows(data, validations)
    ensures AsyncErrors(data, validations) == SyncErrors(data, validations)
  {
    var a := AsyncErrors(data, validations);
    var s := SyncErrors(data, validations);
    forall k | k in validations
      ensures k in a <==> k in s
      ensures k in a ==> a[k] == s[k]
    {
      assert !RunValidator(validations, k, data).Threw?;
    }
    assert a.Keys == s.Keys;
  }

  /** In the async pass a throwing validator's field is recorded with the exception message. */
  lemma ThrowingFieldRecorded(data: Data, validations: map<string, FieldValidator>, key: string)
    requires key in validations && RunValidator(validations, key, data).Threw?
    ensures key in AsyncErrors(data, validations)
    ensures AsyncErrors(data, validations)[key] == ExceptionMessage(key)
  {
  }

  /** A validator that answers `"X"` on a missing (null or undefined) field. */
  function RequiredX(): FieldValidator {
    (value: JsValue, form: Data) => if value.IsNullish() then Returned(Some("X")) else Returned(None)
  }

  /**
   * `{name: 'John', age: 25}` checked for `name`, `lastName`, `age` and `sex`:
   * the two missing fields fail, the data is returned as it was.
   */
  lemma IncorrectObjectExample()
    ensures var data := map["name" := Str("John"), "age" := Number(Finite(25.0))];
            var validations := map["name" := RequiredX(), "lastName" := RequiredX(), "age" := RequiredX(), "sex" := RequiredX()];
            !AnyThrows(data, validations) &&
            SyncErrors(data, validations) == map["lastName" := "X", "sex" := "X"]
  {
    var data := map["name" := Str("John"), "age" := Number(Finite(25.0))];
    var validations := map["name" := RequiredX(), "lastName" := RequiredX(), "age" := RequiredX(), "sex" := RequiredX()];
    var e := SyncErrors(data, validations);
    assert validations.Keys == {"name", "lastName", "age", "sex"};
    assert RunValidator(validations, "name", data) == Returned(None);
    assert RunValidator(validations, "age", data) == Returned(None);
    assert RunValidator(validations, "lastName", data) == Returned(Some("X"));
    assert RunValidator(validations, "sex", data) == Returned(Some("X"));
    assert e.Keys == {"lastName", "sex"};
  }

  // ---------------------------------------------------------------- the form

  /** The state `useForm(options)` returns, without Vue's reactivity. */
  class Form {
    /** The initial data, the sync validations and the async validations (absent as empty). */
    const data: Data
    const validations: map<string, FieldValidator>
    const asyncValidations: map<string, FieldValidator>
    var loading: bool
    var valid: bool
    var formData: Data
    var errors: map<string, string>

    /** Every recorded message is non-empty and belongs to a field with a validator. */
    ghost predicate Valid()
      reads this
    {
      WellFormedErrors(errors, validations.Keys + asyncValidations.Keys)
    }

    /** `useForm({ data, validations, asyncValidations })` */
    constructor (data: Data, validations: map<string, FieldValidator>, asyncValidations: map<string, FieldValidator>)
      ensures this.data == data && this.validations == validations && this.asyncValidations == asyncValidations
      ensures formData == data && errors == map[] && valid && !loading
      ensures Valid()
    {
      this.data := data;
      this.validations := validations;
      this.asyncValidations := asyncValidations;
      loading := false;
      valid := true;
      formData := data;
      errors := map[];
    }

    /**
     * `resetForm()`: copies the initial data back over `formData` (fields
     * added since are kept), clears `errors`, sets `valid` and clears `loading`.
     */
    method ResetForm()
      modifies this`formData, this`errors, this`valid, this`loading
      ensures formData == old(formData) + data
      ensures old(formData).Keys <= data.Keys ==> formData == data
      ensures data.Keys <= formData.Keys && forall k | k in data :: formData[k] == data[k]
      ensures errors == map[] && valid && !loading
      ensures Valid()
    {
      formData := formData + data;
      errors := map[];
      valid := true;
      loading := false;
    }

    /**
     * `validateForm()`: with no sync validations, true and nothing changes;
     * otherwise `errors` is replaced by the failures of this pass (stale
     * entries are dropped) and `valid` and the result say whether it is empty.
     * A throwing validator propagates before any state changes.
     */
    method ValidateForm() returns (r: Result<bool>)
      requires Valid()
      modifies this`errors, this`valid
      ensures Valid()
      ensures validations == map[] ==> r == Ok(true) && errors == old(errors) && valid == old(valid)
      ensures validations != map[] ==> (r.Thrown? <==> AnyThrows(formData, validations))
      ensures r.Thrown? ==> errors == old(errors) && valid == old(valid)
      ensures validations != map[] && r.Ok? ==>
        errors == SyncErrors(formData, validations) && valid == (errors == map[]) && r.value == valid
    {
      if validations == map[] {
        return Ok(true);
      }
      var result := ExecValidators(formData, validations);
      if result.Thrown? {
        return Thrown;
      }
      ErrorsWellFormed(formData, validations);
      errors := result.value.errors;
      valid := result.value.valid;
      r := Ok(valid);
    }

    /**
     * `validateFormAsync()`: with no async validations, true and nothing
     * changes; otherwise this pass's failures are merged INTO `errors` (stale
     * entries stay), `valid` says whether this pass failed nothing, and
     * `loading` ends false.
     */
    method ValidateFormAsync() returns (r: bool)
      requires Valid()
      modifies this`errors, this`valid, this`loading
      ensures Valid()
      ensures asyncValidations == map[] ==> r && errors == old(errors) && valid == old(valid) && loading == old(loading)
      ensures asyncValidations != map[] ==>
        && errors == old(errors) + AsyncErrors(old(formData), asyncValidations)
        && valid == (AsyncErrors(old(formData), asyncValidations) == map[])
        && r == valid
        && !loading
    {
      if asyncValidations == map[] {
        return true;
      }
      var current := formData;
      loading := true;
      var result := ExecAsyncValidators(current, asyncValidations);
      ErrorsWellFormed(current, asyncValidations);
      MergeWellFormed(errors, result.errors, validations.Keys + asyncValidations.Keys);
      errors := errors + result.errors;
      valid := result.valid;
      loading := false;
      r := valid;
      assert current == old(formData);
    }

    /**
     * `validateInput(field)`: with no sync validator for `field`, true and
     * nothing changes; a failure records its message for `field` and clears
     * `valid`; a pass changes nothing, so an earlier error for `field` stays.
     */
    method ValidateInput(field: string) returns (r: Result<bool>)
      requires Valid()
      modifies this`errors, this`valid
      ensures Valid()
      ensures field !in validations ==> r == Ok(true) && errors == old(errors) && valid == old(valid)
      ensures field in validations ==>
        var o := RunValidator(validations, field, formData);
        && (r.Thrown? <==> o.Threw?)
        && (r.Thrown? ==> errors == old(errors) && valid == old(valid))
        && (Fails(o) ==> r == Ok(false) && errors == old(errors)[field := o.message.value] && !valid)
        && (o.Returned? && !Fails(o) ==> r == Ok(true) && errors == old(errors) && valid == old(valid))
    {
      if validations == map[] {
        return Ok(true);
      }
      if field !in validations {
        return Ok(true);
      }
      var outcome := RunValidator(validations, field, formData);
      if outcome.Threw? {
        return Thrown;
      }
      if Fails(outcome) {
        errors := errors[field := outcome.message.value];
        valid := false;
      }
      r := Ok(!Fails(outcome));
    }

    /**
     * `validateInputAsync(field)`: like `validateInput`, but a throwing
     * validator records the exception message, and `valid` is never touched.
     */
    method ValidateInputAsync(field: string) returns (r: bool)
      requires Valid()
      modifies this`errors
      ensures Valid()
      ensures field !in asyncValidations ==> r && errors == old(errors)
      ensures field in asyncValidations ==>
        match AsyncMessage(field, RunValidator(asyncValidations, field, formData))
        case Some(m) => !r && errors == old(errors)[field := m]
        case None => r && errors == old(errors)
    {
      if asyncValidations == map[] {
        return true;
      }
      if field !in asyncValidations {
        return true;
      }
      var outcome := RunValidator(asyncValidations, field, formData);
      var message := AsyncMessage(field, outcome);
      if message.Some? {
        errors := errors[field := message.value];
      }
      r := message.None?;
    }
  }
}
