/** The boolean validator chain (`boolean(value)`). */
module BooleanValidators {
  import opened Common
  import Chain

  datatype Check = Required | IsTrue | IsFalse

  /** Whether check `c` records its message for `value`. */
  predicate Fails(c: Check, value: Nullable<bool>) {
    match c
    case Required => value.IsNullish()
    case IsTrue => value == Present(false)
    case IsFalse => value == Present(true)
  }

  class Validator {
    const value: Nullable<bool>
    var message: Option<string>

    /** `Validator.fromValue(value)`, also reached through `boolean(value)`. */
    constructor FromValue(value: Nullable<bool>)
      ensures this.value == value && message == None
    {
      this.value := value;
      message := None;
    }

    /** The message of the last failing check, if any; reads only. */
    method Validate() returns (r: Option<string>)
      ensures r == message
    {
      r := message;
    }

    method Required(msg: string := "Required field")
      modifies this`message
      ensures message == Chain.Step(old(message), Fails(Check.Required, value), msg)
    {
      if value.Null? || value.Undefined? {
        message := Some(msg);
      }
    }

    method IsTrue(msg: string := "Required field to be true")
      modifies this`message
      ensures message == Chain.Step(old(message), Fails(Check.IsTrue, value), msg)
    {
      if value.Null? || value.Undefined? {
        return;
      }
      if value.v == false {
        message := Some(msg);
      }
    }

    method IsFalse(msg: string := "Required field to be false")
      modifies this`message
      ensures message == Chain.Step(old(message), Fails(Check.IsFalse, value), msg)
    {
      if value.Null? || value.Undefined? {
        return;
      }
      if value.v == true {
        message := Some(msg);
      }
    }
  }

  /** `required` fails only on null and undefined: `false` is present. */
  lemma RequiredOnlyOnNullish(value: Nullable<bool>)
    ensures Fails(Required, value) <==> value.IsNullish()
    ensures !Fails(Required, Present(false))
  {
  }

  /**
   * On a present value exactly one of `isTrue` and `isFalse` fails, and it is
   * the one the value contradicts; on an absent value neither fails.
   */
  lemma IsTrueXorIsFalse(value: Nullable<bool>)
    ensures value.Present? ==> Fails(IsTrue, value) != Fails(IsFalse, value)
    ensures value.Present? ==> (Fails(IsTrue, value) <==> !value.v)
    ensures value.IsNullish() ==> !Fails(IsTrue, value) && !Fails(IsFalse, value)
  {
    if value.Present? {
      if value.v {
        assert value == Present(true);
      } else {
        assert value == Present(false);
      }
    }
  }
}
