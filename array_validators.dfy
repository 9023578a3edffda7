/** The array validator chain (`array(value)`). */
module ArrayValidators {
  import opened Common
  import Chain

  /** `new Set(xs)`: the distinct elements of `xs`. */
  function Elements<T>(xs: seq<T>): set<T> {
    set x | x in xs
  }

  /** No element occurs twice. */
  predicate Distinct<T(==)>(xs: seq<T>) {
    forall i, j | 0 <= i < j < |xs| :: xs[i] != xs[j]
  }

  /** `xs.every(p)` */
  predicate Every<T>(xs: seq<T>, p: T -> bool) {
    forall i | 0 <= i < |xs| :: p(xs[i])
  }

  datatype Check<!T> =
    | Required | NotEmpty | HasNoDuplicates
    | MinLength(n: int) | Contains(element: T) | AllMatch(p: T -> bool)

  /** Whether check `c` records its message for `value`. An array is always truthy. */
  predicate Fails<T(==)>(c: Check<T>, value: Nullable<seq<T>>) {
    if c.Required? then value.IsNullish()
    else
      value.Present? &&
      var xs := value.v;
      match c
      case NotEmpty => |xs| == 0
      case HasNoDuplicates => |Elements(xs)| != |xs|
      case MinLength(n) => |xs| < n
      case Contains(element) => element !in xs
      case AllMatch(p) => !Every(xs, p)
  }

  class Validator<T(==)> {
    const value: Nullable<seq<T>>
    var message: Option<string>

    /** `Validator.fromValue(value)`, also reached through `array(value)`. */
    constructor FromValue(value: Nullable<seq<T>>)
      ensures this.value == value && message == None
    {
      this.value := value;
      message := None;
    }

    /** The message of the last failing check, if any; reads only. */
    method Validate() returns (r: Option<string>)
      ensures r == message
    {
      r := message;
    }

    method Required(msg: string := "Required field")
      modifies this`message
      ensures message == Chain.Step(old(message), Fails(Check.Required, value), msg)
    {
      if !value.Present? {
        message := Some(msg);
      }
    }

    method NotEmpty(msg: string := "Array must not be empty")
      modifies this`message
      ensures message == Chain.Step(old(message), Fails(Check.NotEmpty, value), msg)
    {
      if !value.Present? {
        return;
      }
      if |value.v| == 0 {
        message := Some(msg);
      }
    }

    method HasNoDuplicates(msg: string := "Array must not contain duplicates")
      modifies this`message
      ensures message == Chain.Step(old(message), Fails(Check.HasNoDuplicates, value), msg)
    {
      if !value.Present? {
        return;
      }
      var elements := Elements(value.v);
      if |elements| != |value.v| {
        message := Some(msg);
      }
    }

    method MinLength(n: int, msg: string := "Array must have at least " + IntToString(n) + " elements")
      modifies this`message
      ensures message == Chain.Step(old(message), Fails(Check.MinLength(n), value), msg)
    {
      if !value.Present? {
        return;
      }
      if |value.v| < n {
        message := Some(msg);
      }
    }

    method Contains(element: T, msg: string)
      modifies this`message
      ensures message == Chain.Step(old(message), Fails(Check.Contains(element), value), msg)
    {
      if !value.Present? {
        return;
      }
      if element !in value.v {
        message := Some(msg);
      }
    }

    method AllMatch(p: T -> bool, msg: string := "All elements must match the predicate")
      modifies this`message
      ensures message == Chain.Step(old(message), Fails(Check.AllMatch(p), value), msg)
    {
      if !value.Present? {
        return;
      }
      if !Every(value.v, p) {
        message := Some(msg);
      }
    }
  }

  /** A sequence never has more distinct elements than it has positions. */
  lemma {:induction false} ElementsBounded<T>(xs: seq<T>)
    ensures |Elements(xs)| <= |xs|
    decreases |xs|
  {
    if xs != [] {
      ElementsBounded(xs[1..]);
      assert Elements(xs) == {xs[0]} + Elements(xs[1..]);
    }
  }

  /** The set of elements is as large as the array exactly when no element repeats. */
  lemma {:induction false} SetSizeDetectsDuplicates<T>(xs: seq<T>)
    ensures |Elements(xs)| == |xs| <==> Distinct(xs)
    decreases |xs|
  {
    if xs != [] {
      var tail := xs[1..];
      SetSizeDetectsDuplicates(tail);
      ElementsBounded(tail);
      assert Elements(xs) == {xs[0]} + Elements(tail);
      if xs[0] in tail {
        var j :| 0 <= j < |tail| && tail[j] == xs[0];
        assert xs[0] == xs[j + 1];
      } else {
        assert Distinct(xs) <==> Distinct(tail) by {
          if Distinct(tail) {
            forall i, j | 0 <= i < j < |xs| ensures xs[i] != xs[j] {
              if i == 0 {
                assert xs[j] == tail[j - 1];
              } else {
                assert xs[i] == tail[i - 1] && xs[j] == tail[j - 1];
              }
            }
          }
          if Distinct(xs) {
            forall i, j | 0 <= i < j < |tail| ensures tail[i] != tail[j] {
              assert tail[i] == xs[i + 1] && tail[j] == xs[j + 1];
            }
          }
        }
      }
    }
  }

  /** `hasNoDuplicates` fails exactly when some element occurs twice. */
  lemma HasNoDuplicatesIffRepeat<T>(xs: seq<T>)
    ensures Fails(HasNoDuplicates, Present(xs)) <==> exists i, j | 0 <= i < j < |xs| :: xs[i] == xs[j]
  {
    SetSizeDetectsDuplicates(xs);
  }

  /** `required` fails only on null and undefined: `[]` is present. */
  lemma RequiredOnlyOnNullish<T>(value: Nullable<seq<T>>)
    ensures Fails(Required, value) <==> value.IsNullish()
    ensures !Fails(Check<T>.Required, Present([]))
  {
  }

  /** Every check other than `required` is a no-op on an absent value. */
  lemma AbsentIsIgnored<T>(c: Check<T>, value: Nullable<seq<T>>)
    requires value.IsNullish() && !c.Required?
    ensures !Fails(c, value)
  {
  }

  /** `allMatch` fails exactly when some element falsifies the predicate; `[]` passes vacuously. */
  lemma AllMatchIffNoCounterexample<T>(xs: seq<T>, p: T -> bool)
    ensures Fails(AllMatch(p), Present(xs)) <==> exists i | 0 <= i < |xs| :: !p(xs[i])
    ensures !Fails(AllMatch(p), Present([]))
  {
  }

  lemma Examples()
    ensures Fails(HasNoDuplicates, Present([1, 2, 3, 1]))
    ensures !Fails(HasNoDuplicates, Present([1, 2, 3]))
    ensures !Fails(MinLength(3), Present([1, 2, 3])) && Fails(MinLength(4), Present([1, 2, 3]))
    ensures !Fails(Contains(3), Present([1, 2, 3])) && Fails(Contains(4), Present([1, 2, 3]))
  {
    HasNoDuplicatesIffRepeat([1, 2, 3, 1]);
    assert [1, 2, 3, 1][0] == [1, 2, 3, 1][3];
    HasNoDuplicatesIffRepeat([1, 2, 3]);
  }
}
