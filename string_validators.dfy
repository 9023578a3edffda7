/** The string validator chain (`string(value)`). */
module StringValidators {
  import opened Common
  import opened Patterns
  import Chain

  /** `!value`: undefined, null and the empty string are all absent for this kind. */
  predicate Blank(value: Nullable<string>) {
    value.IsNullish() || value.v == ""
  }

  /** The checks of the chain, with their parameters. */
  datatype Check =
    | Required
    | Match(test: string -> bool)
    | Email | Integer | Alphabetic | Alphanumeric | Numeric
    | Url(parses: string -> bool)
    | Length(n: int) | Min(n: int) | Max(n: int)
    | Username | Name | Uuid | Lowercase | Uppercase

  /** Whether check `c` records its message for `value`. */
  predicate Fails(c: Check, value: Nullable<string>) {
    if c.Required? then Blank(value)
    else
      !Blank(value) &&
      var s := value.v;
      match c
      case Match(test) => !test(s)
      case Email => !IsEmail(s)
      case Integer => !IsInteger(s)
      case Alphabetic => !IsAlphabetic(s)
      case Alphanumeric => !IsAlphanumeric(s)
      case Numeric => !IsNumeric(s)
      case Url(parses) => !parses(s)
      case Length(n) => Utf16Length(s) != n
      case Min(n) => Utf16Length(s) < n
      case Max(n) => Utf16Length(s) > n
      case Username => !IsUsername(s)
      case Name => !IsName(s)
      case Uuid => !IsUuid(s)
      case Lowercase => s != ToLowerAscii(s)
      case Uppercase => s != ToUpperAscii(s)
  }

  class Validator {
    const value: Nullable<string>
    var message: Option<string>

    /** `Validator.fromValue(value)`, also reached through `string(value)`. */
    constructor FromValue(value: Nullable<string>)
      ensures this.value == value && message == None
    {
      this.value := value;
      message := None;
    }

    /** The message of the last failing check, if any; reads only. */
    method Validate() returns (r: Option<string>)
      ensures r == message
    {
      r := message;
    }

    method Required(msg: string := "Required field")
      modifies this`message
      ensures message == Chain.Step(old(message), Fails(Check.Required, value), msg)
    {
      if Blank(value) {
        message := Some(msg);
      }
    }

    /** `match(regex, msg)`: `test` is `regex.test`. */
    method Match(test: string -> bool, msg: string := "Invalid value")
      modifies this`message
      ensures message == Chain.Step(old(message), Fails(Check.Match(test), value), msg)
    {
      if Blank(value) {
        return;
      }
      if !test(value.v) {
        message := Some(msg);
      }
    }

    method Email(msg: string := "Invalid email")
      modifies this`message
      ensures message == Chain.Step(old(message), Fails(Check.Email, value), msg)
    {
      Match(IsEmail, msg);
    }

    method Integer(msg: string := "Value must be a integer")
      modifies this`message
      ensures message == Chain.Step(old(message), Fails(Check.Integer, value), msg)
    {
      Match(IsInteger, msg);
    }

    method Alphabetic(msg: string := "Value must be alphabetic")
      modifies this`message
      ensures message == Chain.Step(old(message), Fails(Check.Alphabetic, value), msg)
    {
      Match(IsAlphabetic, msg);
    }

    method Alphanumeric(msg: string := "Value must be alphanumeric")
      modifies this`message
      ensures message == Chain.Step(old(message), Fails(Check.Alphanumeric, value), msg)
    {
      Match(IsAlphanumeric, msg);
    }

    method Numeric(msg: string := "Value must be a number")
      modifies this`message
      ensures message == Chain.Step(old(message), Fails(Check.Numeric, value), msg)
    {
      Match(IsNumeric, msg);
    }

    /** `url(msg)`: `parses(s)` stands for `new URL(s)` not throwing. */
    method Url(parses: string -> bool, msg: string := "Invalid URL")
      modifies this`message
      ensures message == Chain.Step(old(message), Fails(Check.Url(parses), value), msg)
    {
      if Blank(value) {
        return;
      }
      if !parses(value.v) {
        message := Some(msg);
      }
    }

    method Length(n: int, msg: string := "Value must contain exact " + IntToString(n) + " chars")
      modifies this`message
      ensures message == Chain.Step(old(message), Fails(Check.Length(n), value), msg)
    {
      if Blank(value) {
        return;
      }
      if Utf16Length(value.v) != n {
        message := Some(msg);
      }
    }

    method Min(n: int, msg: string := "Value must contain at least " + IntToString(n) + " chars")
      modifies this`message
      ensures message == Chain.Step(old(message), Fails(Check.Min(n), value), msg)
    {
      if Blank(value) {
        return;
      }
      if Utf16Length(value.v) < n {
        message := Some(msg);
      }
    }

    method Max(n: int, msg: string := "Value must contain less than " + IntToString(n) + " chars")
      modifies this`message
      ensures message == Chain.Step(old(message), Fails(Check.Max(n), value), msg)
    {
      if Blank(value) {
        return;
      }
      if Utf16Length(value.v) > n {
        message := Some(msg);
      }
    }

    method Username(msg: string := "Value contains invalid characters")
      modifies this`message
      ensures message == Chain.Step(old(message), Fails(Check.Username, value), msg)
    {
      Match(IsUsername, msg);
    }

    method Name(msg: string := "Value contains invalid characters")
      modifies this`message
      ensures message == Chain.Step(old(message), Fails(Check.Name, value), msg)
    {
      Match(IsName, msg);
    }

    method Uuid(msg: string := "Invalid UUID")
      modifies this`message
      ensures message == Chain.Step(old(message), Fails(Check.Uuid, value), msg)
    {
      Match(IsUuid, msg);
    }

    method Lowercase(msg: string := "Value must be lowercase")
      modifies this`message
      ensures message == Chain.Step(old(message), Fails(Check.Lowercase, value), msg)
    {
      if Blank(value) {
        return;
      }
      if value.v != ToLowerAscii(value.v) {
        message := Some(msg);
      }
    }

    method Uppercase(msg: string := "Value must be uppercase")
      modifies this`message
      ensures message == Chain.Step(old(message), Fails(Check.Uppercase, value), msg)
    {
      if Blank(value) {
        return;
      }
      if value.v != ToUpperAscii(value.v) {
        message := Some(msg);
      }
    }
  }

  /** `required` fails exactly on undefined, null and `""`. */
  lemma RequiredIffBlank(value: Nullable<string>)
    ensures Fails(Required, value) <==> value == Undefined || value == Null || value == Present("")
  {
  }

  /** Every check other than `required` is a no-op on an absent value. */
  lemma AbsentIsIgnored(c: Check, value: Nullable<string>)
    requires Blank(value) && !c.Required?
    ensures !Fails(c, value)
  {
  }

  /** An exact length is a lower and an upper bound at once; a length equal to a bound passes both. */
  lemma LengthIsMinAndMax(n: int, value: Nullable<string>)
    ensures Fails(Length(n), value) <==> Fails(Min(n), value) || Fails(Max(n), value)
    ensures !Blank(value) && Utf16Length(value.v) == n ==> !Fails(Min(n), value) && !Fails(Max(n), value)
  {
  }

  /**
   * Lengths are counted in UTF-16 code units, as `.length` counts them: an
   * emoji is two units, so it fails `length(1)` and four of them pass `min(8)`.
   */
  lemma LengthCountsUtf16Units()
    ensures Fails(Length(1), Present("\U{1F600}"))
    ensures !Fails(Length(2), Present("\U{1F600}"))
    ensures !Fails(Min(8), Present("\U{1F600}\U{1F600}\U{1F600}\U{1F600}"))
    ensures Fails(Max(7), Present("\U{1F600}\U{1F600}\U{1F600}\U{1F600}"))
    ensures !Fails(Length(5), Present("hello"))
  {
    var e := '\U{1F600}';
    assert [e][..0] == [];
    assert Utf16Length([e]) == 2;
    assert [e, e][..1] == [e];
    assert Utf16Length([e, e]) == 4;
    assert [e, e, e][..2] == [e, e];
    assert Utf16Length([e, e, e]) == 6;
    assert [e, e, e, e][..3] == [e, e, e];
    assert Utf16Length([e, e, e, e]) == 8;
  }

  /** `integer`, `alphabetic`, `alphanumeric` and `username` pass exactly on non-empty strings of their class. */
  lemma CharacterClassChecks(s: string)
    requires s != ""
    ensures !Fails(Integer, Present(s)) <==> forall i | 0 <= i < |s| :: '0' <= s[i] <= '9'
    ensures !Fails(Alphabetic, Present(s)) <==> forall i | 0 <= i < |s| :: IsAsciiLetter(s[i])
    ensures !Fails(Alphanumeric, Present(s)) <==> forall i | 0 <= i < |s| :: IsAsciiLetter(s[i]) || IsDigit(s[i])
    ensures !Fails(Username, Present(s)) <==> forall i | 0 <= i < |s| :: IsAlnum(s[i]) || s[i] == '_'
  {
  }

  /** `uuid` passes exactly on 36 characters with dashes at 8, 13, 18, 23 and hex digits elsewhere. */
  lemma UuidCheck(s: string)
    requires s != ""
    ensures !Fails(Uuid, Present(s)) <==>
      && |s| == 36
      && forall p | 0 <= p < 36 :: if IsUuidDashPosition(p) then s[p] == '-' else IsHexDigit(s[p])
  {
    UuidCharacterization(s);
  }

  /** `lowercase` fails exactly when the string holds an ASCII upper-case letter. */
  lemma LowercaseCheck(s: string)
    requires s != ""
    ensures Fails(Lowercase, Present(s)) <==> exists i | 0 <= i < |s| :: IsUpperAscii(s[i])
  {
    LowercaseCharacterization(s);
  }

  /** `uppercase` fails exactly when the string holds an ASCII lower-case letter. */
  lemma UppercaseCheck(s: string)
    requires s != ""
    ensures Fails(Uppercase, Present(s)) <==> exists i | 0 <= i < |s| :: IsLowerAscii(s[i])
  {
    UppercaseCharacterization(s);
  }

  /** Whatever passes `integer` passes `numeric`. */
  lemma IntegerPassesNumeric(value: Nullable<string>)
    requires !Fails(Integer, value)
    ensures !Fails(Numeric, value)
  {
    if !Blank(value) {
      IntegerIsNumeric(value.v);
    }
  }
}
