/** The date validator chain (`date(value)`). */
module DateValidators {
  import opened Common
  import Chain

  /**
   * A JavaScript `Date`: either an Invalid Date (time value NaN) or a time
   * value in milliseconds with the year `getFullYear()` reports for it in
   * the local time zone.
   */
  datatype Date = InvalidDate | ValidDate(time: int, year: int)

  /** The argument of `date(value)`: `string | Date | null | undefined`. */
  datatype DateInput = NoInput | NullInput | Text(s: string) | DateObject(d: Date)

  /** The relational operators on dates compare time values; NaN makes every comparison false. */
  predicate Before(a: Date, b: Date) { a.ValidDate? && b.ValidDate? && a.time < b.time }
  predicate NotAfter(a: Date, b: Date) { a.ValidDate? && b.ValidDate? && a.time <= b.time }

  /** The Gregorian leap-year rule. */
  predicate IsLeapYear(y: int) { (y % 4 == 0 && y % 100 != 0) || y % 400 == 0 }

  datatype Check =
    | Required | IsValid | LeapYear
    | GreaterThan(compare: Date) | LessThan(compare: Date) | Range(start: Date, end: Date)

  /** Whether check `c` records its message for `value`. A `Date` object is always truthy. */
  predicate Fails(c: Check, value: Nullable<Date>) {
    if c.Required? then value.IsNullish()
    else
      value.Present? &&
      var d := value.v;
      match c
      case IsValid => d.InvalidDate?
      case LeapYear => d.InvalidDate? || !IsLeapYear(d.year)
      case GreaterThan(compare) => NotAfter(d, compare)
      case LessThan(compare) => NotAfter(compare, d)
      case Range(start, end) => Before(d, start) || Before(end, d)
  }

  class Validator {
    var value: Nullable<Date>
    var message: Option<string>

    /**
     * `Validator.fromValue(value)`, also reached through `date(value)`: a
     * truthy input becomes `new Date(value)`, null and undefined are kept,
     * and `""` leaves the field undefined. `parse(s)` stands for `new Date(s)`.
     */
    constructor FromValue(input: DateInput, parse: string -> Date)
      ensures input == NoInput ==> value == Undefined
      ensures input == NullInput ==> value == Null
      ensures input == Text("") ==> value == Undefined
      ensures input.Text? && input.s != "" ==> value == Present(parse(input.s))
      ensures input.DateObject? ==> value == Present(input.d)
      ensures message == None
    {
      value := Undefined;
      message := None;
      if input.DateObject? || (input.Text? && input.s != "") {
        value := Present(if input.Text? then parse(input.s) else input.d);
      }
      if input.NoInput? {
        value := Undefined;
      }
      if input.NullInput? {
        value := Null;
      }
    }

    /** The message of the last failing check, if any; reads only. */
    method Validate() returns (r: Option<string>)
      ensures r == message
    {
      r := message;
    }

    method Required(msg: string := "Required field")
      modifies this`message
      ensures message == Chain.Step(old(message), Fails(Check.Required, value), msg)
    {
      if !value.Present? {
        message := Some(msg);
      }
    }

    method IsValid(msg: string := "Invalid date")
      modifies this`message
      ensures message == Chain.Step(old(message), Fails(Check.IsValid, value), msg)
    {
      if !value.Present? {
        return;
      }
      if value.v.InvalidDate? {
        message := Some(msg);
      }
    }

    method LeapYear(msg: string := "Date must be leap year")
      modifies this`message
      ensures message == Chain.Step(old(message), Fails(Check.LeapYear, value), msg)
    {
      if !value.Present? {
        return;
      }
      // getFullYear() of an Invalid Date is NaN, and NaN % k === 0 is false
      if value.v.InvalidDate? || !IsLeapYear(value.v.year) {
        message := Some(msg);
      }
    }

    method GreaterThan(compare: Date, msg: string)
      modifies this`message
      ensures message == Chain.Step(old(message), Fails(Check.GreaterThan(compare), value), msg)
    {
      if !value.Present? {
        return;
      }
      if NotAfter(value.v, compare) {
        message := Some(msg);
      }
    }

    method LessThan(compare: Date, msg: string)
      modifies this`message
      ensures message == Chain.Step(old(message), Fails(Check.LessThan(compare), value), msg)
    {
      if !value.Present? {
        return;
      }
      if NotAfter(compare, value.v) {
        message := Some(msg);
      }
    }

    method Range(start: Date, end: Date, msg: string)
      modifies this`message
      ensures message == Chain.Step(old(message), Fails(Check.Range(start, end), value), msg)
    {
      if !value.Present? {
        return;
      }
      if Before(value.v, start) || Before(end, value.v) {
        message := Some(msg);
      }
    }
  }

  /** `required` fails exactly on an absent value; an Invalid Date is present and passes. */
  lemma RequiredOnlyOnAbsent(value: Nullable<Date>)
    ensures Fails(Required, value) <==> value.IsNullish()
    ensures !Fails(Required, Present(InvalidDate))
  {
  }

  /** Every check other than `required` is a no-op on an absent value. */
  lemma AbsentIsIgnored(c: Check, value: Nullable<Date>)
    requires value.IsNullish() && !c.Required?
    ensures !Fails(c, value)
  {
  }

  lemma LeapYearExamples()
    ensures IsLeapYear(2020) && IsLeapYear(2000) && IsLeapYear(2024)
    ensures !IsLeapYear(2022) && !IsLeapYear(1900) && !IsLeapYear(2100)
  {
  }

  /**
   * `greaterThan` and `lessThan` are strict: on valid dates, a value equal to
   * the bound fails both, and any other value fails exactly one.
   */
  lemma ComparisonsAreStrict(d: Date, compare: Date)
    requires d.ValidDate? && compare.ValidDate?
    ensures Fails(GreaterThan(compare), Present(d)) <==> d.time <= compare.time
    ensures Fails(LessThan(compare), Present(d)) <==> d.time >= compare.time
    ensures d.time == compare.time ==> Fails(GreaterThan(compare), Present(d)) && Fails(LessThan(compare), Present(d))
    ensures d.time != compare.time ==> Fails(GreaterThan(compare), Present(d)) != Fails(LessThan(compare), Present(d))
  {
  }

  /** `range(start, end)` includes both ends. */
  lemma RangeIsInclusive(d: Date, start: Date, end: Date)
    requires d.ValidDate? && start.ValidDate? && end.ValidDate?
    ensures Fails(Range(start, end), Present(d)) <==> d.time < start.time || d.time > end.time
  {
  }

  /**
   * A time value of NaN makes every comparison false, so an Invalid Date
   * passes `greaterThan`, `lessThan` and `range`, and fails `isValid` and `leapYear`.
   */
  lemma InvalidDateSlipsThroughComparisons(a: Date, b: Date)
    ensures !Fails(GreaterThan(a), Present(InvalidDate)) && !Fails(LessThan(a), Present(InvalidDate))
    ensures !Fails(Range(a, b), Present(InvalidDate))
    ensures Fails(IsValid, Present(InvalidDate)) && Fails(LeapYear, Present(InvalidDate))
  {
  }
}
