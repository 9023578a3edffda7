/** The number validator chain (`number(value)`). */
module NumberValidators {
  import opened Common
  import Chain

  /** `Number.isInteger` on a finite number. */
  predicate IsIntegral(r: real) { r.Floor as real == r }

  /** `n < bound` (false when `n` is NaN) */
  predicate Below(n: Num, bound: real) { n.Finite? && n.r < bound }
  /** `n > bound` (false when `n` is NaN) */
  predicate Above(n: Num, bound: real) { n.Finite? && n.r > bound }

  datatype Check =
    | Required | Integer | Decimal | Positive | Negative
    | Range(min: real, max: real) | Min(min: real) | Max(max: real)

  /** Whether check `c` records its message for `value`. */
  predicate Fails(c: Check, value: Nullable<Num>) {
    if c.Required? then value.IsNullish()
    else
      value.Present? &&
      var n := value.v;
      match c
      case Integer => n.NaN? || !IsIntegral(n.r)
      case Decimal => n.NaN? || IsIntegral(n.r)
      case Positive => Below(n, 0.0)
      case Negative => n.Finite? && n.r >= 0.0
      case Range(min, max) => Below(n, min) || Above(n, max)
      case Min(min) => Below(n, min)
      case Max(max) => Above(n, max)
  }

  class Validator {
    const value: Nullable<Num>
    var message: Option<string>

    /** `Validator.fromValue(value)`, also reached through `number(value)`. */
    constructor FromValue(value: Nullable<Num>)
      ensures this.value == value && message == None
    {
      this.value := value;
      message := None;
    }

    /** The message of the last failing check, if any; reads only. */
    method Validate() returns (r: Option<string>)
      ensures r == message
    {
      r := message;
    }

    method Required(msg: string := "Required field")
      modifies this`message
      ensures message == Chain.Step(old(message), Fails(Check.Required, value), msg)
    {
      if value.Null? || value.Undefined? {
        message := Some(msg);
      }
    }

    method Integer(msg: string := "Value must be an integer")
      modifies this`message
      ensures message == Chain.Step(old(message), Fails(Check.Integer, value), msg)
    {
      if value.Null? || value.Undefined? {
        return;
      }
      if value.v.NaN? || !IsIntegral(value.v.r) {
        message := Some(msg);
      }
    }

    method Decimal(msg: string := "Value must be a decimal")
      modifies this`message
      ensures message == Chain.Step(old(message), Fails(Check.Decimal, value), msg)
    {
      if value.Null? || value.Undefined? {
        return;
      }
      if value.v.NaN? || IsIntegral(value.v.r) {
        message := Some(msg);
      }
    }

    method Positive(msg: string := "Value must be positive")
      modifies this`message
      ensures message == Chain.Step(old(message), Fails(Check.Positive, value), msg)
    {
      if value.Null? || value.Undefined? {
        return;
      }
      if Below(value.v, 0.0) {
        message := Some(msg);
      }
    }

    method Negative(msg: string := "Value must be negative")
      modifies this`message
      ensures message == Chain.Step(old(message), Fails(Check.Negative, value), msg)
    {
      if value.Null? || value.Undefined? {
        return;
      }
      if value.v.Finite? && value.v.r >= 0.0 {
        message := Some(msg);
      }
    }

    method Range(min: real, max: real, msg: string)
      modifies this`message
      ensures message == Chain.Step(old(message), Fails(Check.Range(min, max), value), msg)
    {
      if value.Null? || value.Undefined? {
        return;
      }
      if Below(value.v, min) || Above(value.v, max) {
        message := Some(msg);
      }
    }

    method Min(min: real, msg: string)
      modifies this`message
      ensures message == Chain.Step(old(message), Fails(Check.Min(min), value), msg)
    {
      if value.Null? || value.Undefined? {
        return;
      }
      if Below(value.v, min) {
        message := Some(msg);
      }
    }

    method Max(max: real, msg: string)
      modifies this`message
      ensures message == Chain.Step(old(message), Fails(Check.Max(max), value), msg)
    {
      if value.Null? || value.Undefined? {
        return;
      }
      if Above(value.v, max) {
        message := Some(msg);
      }
    }
  }

  /** `required` fails only on null and undefined: 0 and NaN are present. */
  lemma RequiredOnlyOnNullish(value: Nullable<Num>)
    ensures Fails(Required, value) <==> value == Undefined || value == Null
    ensures !Fails(Required, Present(Finite(0.0)))
  {
  }

  /** Every check other than `required` is a no-op on null and undefined. */
  lemma AbsentIsIgnored(c: Check, value: Nullable<Num>)
    requires value.IsNullish() && !c.Required?
    ensures !Fails(c, value)
  {
  }

  /**
   * On a present number exactly one of `integer` and `decimal` fails;
   * NaN fails both.
   */
  lemma IntegerXorDecimal(n: Num)
    ensures n.Finite? ==> Fails(Integer, Present(n)) != Fails(Decimal, Present(n))
    ensures n.NaN? ==> Fails(Integer, Present(n)) && Fails(Decimal, Present(n))
  {
  }

  /**
   * On a present finite number exactly one of `positive` and `negative`
   * fails: zero counts as positive. NaN fails neither.
   */
  lemma PositiveXorNegative(n: Num)
    ensures n.Finite? ==> Fails(Positive, Present(n)) != Fails(Negative, Present(n))
    ensures !Fails(Positive, Present(Finite(0.0))) && Fails(Negative, Present(Finite(0.0)))
    ensures n.NaN? ==> !Fails(Positive, Present(n)) && !Fails(Negative, Present(n))
  {
  }

  /** `range(min, max)` is `min(min)` and `max(max)` together; both ends are inclusive. */
  lemma RangeIsMinAndMax(min: real, max: real, value: Nullable<Num>)
    ensures Fails(Range(min, max), value) <==> Fails(Min(min), value) || Fails(Max(max), value)
    ensures min <= max ==> !Fails(Range(min, max), Present(Finite(min))) && !Fails(Range(min, max), Present(Finite(max)))
  {
  }

  lemma Examples()
    ensures !Fails(Integer, Present(Finite(120.0))) && Fails(Integer, Present(Finite(125.5)))
    ensures !Fails(Decimal, Present(Finite(120.5))) && Fails(Decimal, Present(Finite(125.0)))
    ensures Fails(Range(1.0, 10.0), Present(Finite(0.0))) && Fails(Range(1.0, 10.0), Present(Finite(11.0)))
    ensures !Fails(Min(10.0), Present(Finite(10.0))) && Fails(Min(10.0), Present(Finite(9.0)))
  {
    assert (125.5).Floor == 125;
    assert (120.5).Floor == 120;
  }
}
