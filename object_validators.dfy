/** The object validator chain (`object(value)`) and its `haveProperties` helper. */
module ObjectValidators {
  import opened Common
  import opened JsValues
  import Chain

  // ---------------------------------------------------------------- property paths

  /** `s.split('.')` */
  function Split(s: string): (parts: seq<string>)
    ensures |parts| >= 1
    decreases |s|
  {
    if s == "" then [""]
    else
      var rest := Split(s[1..]);
      if s[0] == '.' then [""] + rest else [[s[0]] + rest[0]] + rest[1..]
  }

  /** No piece of a split holds the separator. */
  lemma {:induction false} SplitPartsDotFree(s: string)
    ensures forall i | 0 <= i < |Split(s)| :: '.' !in Split(s)[i]
    decreases |s|
  {
    if s != "" {
      SplitPartsDotFree(s[1..]);
    }
  }

  /** A string holding a dot splits into two pieces or more. */
  lemma {:induction false} SplitDotted(s: string)
    requires '.' in s
    ensures |Split(s)| >= 2
    decreases |s|
  {
    if s[0] != '.' {
      SplitDotted(s[1..]);
    }
  }

  /** Joining the pieces of a split with the separator gives the string back. */
  lemma {:induction false} JoinSplit(s: string)
    ensures Join(Split(s), ".") == s
    decreases |s|
  {
    if s != "" {
      var rest := Split(s[1..]);
      JoinSplit(s[1..]);
      if s[0] == '.' {
        assert Split(s) == [""] + rest;
        assert (Split(s))[1..] == rest;
      } else if |rest| == 1 {
        assert Split(s) == [[s[0]] + rest[0]];
      } else {
        assert Split(s)[1..] == rest[1..];
        assert Join(rest, ".") == rest[0] + "." + Join(rest[1..], ".");
      }
    }
  }

  /** Splitting `a + "." + b` peels `a` off when `a` has no dot. */
  lemma {:induction false} SplitAfterDotFree(a: string, b: string)
    requires '.' !in a
    ensures Split(a + "." + b) == [a] + Split(b)
    decreases |a|
  {
    if a == "" {
      assert a + "." + b == "." + b;
      assert ("." + b)[1..] == b;
    } else {
      SplitAfterDotFree(a[1..], b);
      var s := a + "." + b;
      assert s[0] == a[0] && s[0] != '.';
      assert s[1..] == a[1..] + "." + b;
      var rest := Split(s[1..]);
      assert rest == [a[1..]] + Split(b);
      assert Split(s) == [[a[0]] + a[1..]] + Split(b);
      assert [a[0]] + a[1..] == a;
    }
  }

  /** A dot-free string is its own single piece. */
  lemma {:induction false} SplitDotFree(a: string)
    requires '.' !in a
    ensures Split(a) == [a]
    decreases |a|
  {
    if a != "" {
      SplitDotFree(a[1..]);
      assert [a[0]] + a[1..] == a;
    }
  }

  /** Splitting a join of dot-free pieces gives the pieces back. */
  lemma {:induction false} SplitJoin(parts: seq<string>)
    requires |parts| >= 1
    requires forall i | 0 <= i < |parts| :: '.' !in parts[i]
    ensures Split(Join(parts, ".")) == parts
    decreases |parts|
  {
    if |parts| == 1 {
      SplitDotFree(parts[0]);
    } else {
      SplitJoin(parts[1..]);
      SplitAfterDotFree(parts[0], Join(parts[1..], "."));
    }
  }

  /** Some listed property name holds a dot. */
  predicate AnyDotted(props: seq<string>) {
    exists i | 0 <= i < |props| :: '.' in props[i]
  }

  // ---------------------------------------------------------------- haveProperties, as written

  /**
   * `haveProperties(o, props)`: walks `props` in order and returns false at
   * the first name that fails. An undotted name needs `o[name]` to be truthy.
   * A dotted name `p0.p1...pn` recurses on `o[p0]` with `[p1, ..., pn]` as
   * SEPARATE names. Reading a property of null or undefined throws.
   */
  function HaveProperties(o: JsValue, props: seq<string>): (r: Result<bool>)
    ensures props == [] ==> r == Ok(true)
    ensures props != [] && o.IsNullish() ==> r == Thrown
    ensures r == Ok(true) ==> forall i | 0 <= i < |props| && '.' !in props[i] :: Truthy(Lookup(o, props[i]))
    decreases if AnyDotted(props) then 1 else 0, |props|
  {
    if props == [] then Ok(true)
    else
      var property := props[0];
      assert AnyDotted(props[1..]) ==> AnyDotted(props) by {
        if AnyDotted(props[1..]) {
          var i :| 0 <= i < |props[1..]| && '.' in props[1..][i];
          assert props[i + 1] == props[1..][i];
        }
      }
      if '.' in property then
        var parts := Split(property);
        SplitPartsDotFree(property);
        assert !AnyDotted(parts[1..]) by {
          forall i | 0 <= i < |parts[1..]| ensures '.' !in parts[1..][i] {
            assert parts[1..][i] == parts[i + 1];
          }
        }
        match Get(o, parts[0])
        case Thrown => Thrown
        case Ok(current) =>
          match HaveProperties(current, parts[1..])
          case Thrown => Thrown
          case Ok(has) => if !has then Ok(false) else HaveProperties(o, props[1..])
      else
        match Get(o, property)
        case Thrown => Thrown
        case Ok(v) => if !Truthy(v) then Ok(false) else HaveProperties(o, props[1..])
  }

  /** With no names to check, `haveProperties` is true, even on null or undefined. */
  lemma NoPropertiesHold(o: JsValue)
    ensures HaveProperties(o, []) == Ok(true)
  {
  }

  /** Any name read on null or undefined throws. */
  lemma NullishThrows(o: JsValue, props: seq<string>)
    requires o.IsNullish() && props != []
    ensures HaveProperties(o, props) == Thrown
  {
  }

  /** Over undotted names, `haveProperties` is the conjunction of the names' truthiness. */
  lemma {:induction false} UndottedIsConjunction(o: JsValue, props: seq<string>)
    requires !o.IsNullish() && !AnyDotted(props)
    ensures HaveProperties(o, props) == Ok(forall i | 0 <= i < |props| :: Truthy(Lookup(o, props[i])))
    decreases |props|
  {
    if props != [] {
      assert '.' !in props[0];
      assert !AnyDotted(props[1..]) by {
        forall i | 0 <= i < |props[1..]| ensures '.' !in props[1..][i] {
          assert props[1..][i] == props[i + 1];
        }
      }
      UndottedIsConjunction(o, props[1..]);
      assert (forall i | 0 <= i < |props| :: Truthy(Lookup(o, props[i]))) <==>
             Truthy(Lookup(o, props[0])) && (forall i | 0 <= i < |props[1..]| :: Truthy(Lookup(o, props[1..][i])));
    }
  }

  /**
   * A dotted name checks its first segment's value for EACH later segment as
   * a sibling property: `"a.b.c"` checks `o.a.b` and `o.a.c`, not `o.a.b.c`.
   * A null or undefined `o.a` throws.
   */
  lemma DottedNameChecksSiblings(o: JsValue, property: string)
    requires !o.IsNullish() && '.' in property
    ensures var parts := Split(property);
            var current := Lookup(o, parts[0]);
            HaveProperties(o, [property]) ==
              if current.IsNullish() then Thrown
              else Ok(forall i | 1 <= i < |parts| :: Truthy(Lookup(current, parts[i])))
  {
    var parts := Split(property);
    var current := Lookup(o, parts[0]);
    SplitPartsDotFree(property);
    SplitDotted(property);
    if !current.IsNullish() {
      assert !AnyDotted(parts[1..]) by {
        forall i | 0 <= i < |parts[1..]| ensures '.' !in parts[1..][i] {
          assert parts[1..][i] == parts[i + 1];
        }
      }
      UndottedIsConjunction(current, parts[1..]);
      assert (forall i | 1 <= i < |parts| :: Truthy(Lookup(current, parts[i]))) <==>
             (forall i | 0 <= i < |parts[1..]| :: Truthy(Lookup(current, parts[1..][i])));
    }
  }

  lemma SplitAB()
    ensures Split("a.b") == ["a", "b"]
  {
    SplitJoin(["a", "b"]);
  }

  lemma SplitABC()
    ensures Split("a.b.c") == ["a", "b", "c"]
  {
    assert Join(["a", "b", "c"], ".") == "a.b.c" by {
      assert ["a", "b", "c"][1..] == ["b", "c"];
      assert ["b", "c"][1..] == ["c"];
    }
    SplitJoin(["a", "b", "c"]);
  }

  /** Undotted names: a truthy property passes, a missing or falsy one fails. */
  lemma PlainNameExamples()
    ensures HaveProperties(Obj(map["hello" := Str("world")]), ["hello"]) == Ok(true)
    ensures HaveProperties(Obj(map[]), ["hello"]) == Ok(false)
    ensures HaveProperties(Obj(map["n" := Number(Finite(0.0))]), ["n"]) == Ok(false)
  {
  }

  /** A nested property is found one level down; a missing first segment throws. */
  lemma DottedNameExamples()
    ensures HaveProperties(Obj(map["a" := Obj(map["b" := Number(Finite(1.0))])]), ["a.b"]) == Ok(true)
    ensures HaveProperties(Obj(map["a" := Obj(map[])]), ["a.b"]) == Ok(false)
    ensures HaveProperties(Obj(map[]), ["a.b"]) == Thrown
  {
    SplitAB();
  }

  /** An earlier failing name stops the walk before a dotted name can throw. */
  lemma EarlyFalseStopsBeforeThrow()
    ensures HaveProperties(Obj(map[]), ["x", "a.b"]) == Ok(false)
  {
  }

  // ---------------------------------------------------------------- haveProperties, as evidently intended

  /** `o?.[name]` */
  function SafeGet(o: JsValue, name: string): JsValue {
    if o.IsNullish() then JsValue.Undefined else Lookup(o, name)
  }

  /** `o?.[n0]?.[n1]...`: the value at the end of a property path, undefined once a step is missing. */
  function PathValue(o: JsValue, names: seq<string>): JsValue
    decreases |names|
  {
    if names == [] then o else PathValue(SafeGet(o, names[0]), names[1..])
  }

  function SumLengths(xs: seq<string>): nat
    decreases |xs|
  {
    if xs == [] then 0 else |xs[0]| + SumLengths(xs[1..])
  }

  /** The path after the first segment is shorter than the whole path. */
  lemma TailPathShorter(property: string)
    requires '.' in property
    ensures |Split(property)| >= 2
    ensures |Join(Split(property)[1..], ".")| < |property|
  {
    var parts := Split(property);
    SplitDotted(property);
    JoinSplit(property);
    assert Join(parts, ".") == parts[0] + "." + Join(parts[1..], ".");
  }

  /**
   * `haveProperties` with the dotted remainder re-joined into one path
   * (`[parts.slice(1).join('.')]`) and property reads guarded by `?.`, so that
   * `"a.b.c"` requires `o.a.b.c` and a missing step yields false.
   */
  function HavePropertiesFixed(o: JsValue, props: seq<string>): (r: bool)
    ensures props == [] ==> r
    ensures props != [] && o.IsNullish() ==> !r
    ensures r ==> forall i | 0 <= i < |props| && '.' !in props[i] :: Truthy(SafeGet(o, props[i]))
    decreases SumLengths(props), |props|
  {
    if props == [] then true
    else
      var property := props[0];
      if '.' in property then
        var parts := Split(property);
        TailPathShorter(property);
        assert SumLengths([Join(parts[1..], ".")]) < SumLengths(props) by {
          assert [Join(parts[1..], ".")][1..] == [];
        }
        HavePropertiesFixed(SafeGet(o, parts[0]), [Join(parts[1..], ".")]) && HavePropertiesFixed(o, props[1..])
      else
        Truthy(SafeGet(o, property)) && HavePropertiesFixed(o, props[1..])
  }

  /** The value at the end of the dotted path `property` is truthy. */
  predicate PathHolds(o: JsValue, property: string) {
    Truthy(PathValue(o, Split(property)))
  }

  /** On one name, the corrected helper follows its whole path. */
  lemma {:induction false} SinglePathFollowed(o: JsValue, property: string)
    ensures HavePropertiesFixed(o, [property]) <==> PathHolds(o, property)
    decreases |property|
  {
    assert [property][1..] == [];
    if '.' in property {
      var parts := Split(property);
      var rest := Join(parts[1..], ".");
      TailPathShorter(property);
      SinglePathFollowed(SafeGet(o, parts[0]), rest);
      SplitPartsDotFree(property);
      assert forall i | 0 <= i < |parts[1..]| :: parts[1..][i] == parts[i + 1];
      SplitJoin(parts[1..]);
      assert PathValue(o, parts) == PathValue(SafeGet(o, parts[0]), parts[1..]);
    } else {
      SplitDotFree(property);
      assert PathValue(o, [property]) == PathValue(SafeGet(o, property), []);
    }
  }

  /** The corrected helper checks its names one at a time. */
  lemma HeadThenRest(o: JsValue, props: seq<string>)
    requires props != []
    ensures HavePropertiesFixed(o, props) <==> HavePropertiesFixed(o, [props[0]]) && HavePropertiesFixed(o, props[1..])
  {
    assert [props[0]][1..] == [];
  }

  /** The corrected helper requires the value at the end of every listed path to be truthy. */
  lemma {:induction false} HavePropertiesFixedFollowsPaths(o: JsValue, props: seq<string>)
    ensures HavePropertiesFixed(o, props) <==> forall i | 0 <= i < |props| :: PathHolds(o, props[i])
    decreases |props|
  {
    if props != [] {
      HavePropertiesFixedFollowsPaths(o, props[1..]);
      HeadThenRest(o, props);
      SinglePathFollowed(o, props[0]);
      assert (forall i | 0 <= i < |props| :: PathHolds(o, props[i])) <==>
             PathHolds(o, props[0]) && (forall i | 0 <= i < |props[1..]| :: PathHolds(o, props[1..][i]));
    }
  }

  /** Without dotted names the corrected helper answers as the written one, on any value that is not null or undefined. */
  lemma {:induction false} UndottedNamesAgree(o: JsValue, props: seq<string>)
    requires !o.IsNullish() && !AnyDotted(props)
    ensures HaveProperties(o, props) == Ok(HavePropertiesFixed(o, props))
  {
    UndottedIsConjunction(o, props);
    HavePropertiesFixedFollowsPaths(o, props);
    forall i | 0 <= i < |props|
      ensures PathValue(o, Split(props[i])) == Lookup(o, props[i])
    {
      SplitDotFree(props[i]);
      assert PathValue(o, [props[i]]) == PathValue(SafeGet(o, props[i]), []);
    }
  }

  /** `{a: {b: {c: 1}}}`: the path `a.b.c` leads to a truthy value. */
  function NestedPath(): JsValue {
    Obj(map["a" := Obj(map["b" := Obj(map["c" := Number(Finite(1.0))])])])
  }

  /** `{a: {b: 1, c: 1}}`: `a.b` and `a.c` are there, `a.b.c` is not. */
  function SiblingPaths(): JsValue {
    Obj(map["a" := Obj(map["b" := Number(Finite(1.0)), "c" := Number(Finite(1.0))])])
  }

  /**
   * The two readings part ways on `"a.b.c"` with `{a: {b: {c: 1}}}`: the
   * written helper looks for `o.a.c` and answers false, although `o.a.b.c`
   * is there.
   */
  lemma NestedPathRejectedAsWritten()
    ensures HaveProperties(NestedPath(), ["a.b.c"]) == Ok(false)
    ensures HavePropertiesFixed(NestedPath(), ["a.b.c"])
  {
    var o := NestedPath();
    SplitABC();
    var a := Lookup(o, "a");
    assert a == Obj(map["b" := Obj(map["c" := Number(Finite(1.0))])]);
    assert Lookup(a, "c") == JsValue.Undefined;
    DottedNameChecksSiblings(o, "a.b.c");
    SinglePathFollowed(o, "a.b.c");
    var b := Lookup(a, "b");
    assert PathValue(o, ["a", "b", "c"]) == PathValue(a, ["b", "c"]);
    assert PathValue(a, ["b", "c"]) == PathValue(b, ["c"]);
    assert PathValue(b, ["c"]) == PathValue(Number(Finite(1.0)), []);
  }

  /**
   * ... and on `"a.b.c"` with `{a: {b: 1, c: 1}}` the written helper answers
   * true, although `o.a.b.c` is missing.
   */
  lemma SiblingPathsAcceptedAsWritten()
    ensures HaveProperties(SiblingPaths(), ["a.b.c"]) == Ok(true)
    ensures !HavePropertiesFixed(SiblingPaths(), ["a.b.c"])
  {
    var o := SiblingPaths();
    SplitABC();
    var a := Lookup(o, "a");
    assert a == Obj(map["b" := Number(Finite(1.0)), "c" := Number(Finite(1.0))]);
    assert Truthy(Lookup(a, "b")) && Truthy(Lookup(a, "c"));
    DottedNameChecksSiblings(o, "a.b.c");
    SinglePathFollowed(o, "a.b.c");
    var b := Lookup(a, "b");
    assert PathValue(o, ["a", "b", "c"]) == PathValue(a, ["b", "c"]);
    assert PathValue(a, ["b", "c"]) == PathValue(b, ["c"]);
    assert PathValue(b, ["c"]) == PathValue(JsValue.Undefined, []);
  }

  // ---------------------------------------------------------------- the chain

  datatype Check = Required | NotEmpty | HasRequiredProperties(props: seq<string>) | HasOnlyAllowedProperties(allowed: seq<string>)

  /**
   * Whether check `c` records its message for `value`. `hasRequiredProperties`
   * is taken with the corrected helper, which follows each dotted path.
   */
  predicate Fails(c: Check, value: JsValue) {
    if c.Required? then !Truthy(value)
    else
      Truthy(value) &&
      match c
      case NotEmpty => OwnKeys(value) == {}
      case HasRequiredProperties(props) => !HavePropertiesFixed(value, props)
      case HasOnlyAllowedProperties(allowed) => exists k | k in OwnKeys(value) :: k !in allowed
  }

  class Validator {
    const value: JsValue
    var message: Option<string>

    /** `Validator.fromValue(value)`, also reached through `object(value)`. */
    constructor FromValue(value: JsValue)
      ensures this.value == value && message == None
    {
      this.value := value;
      message := None;
    }

    /** The message of the last failing check, if any; reads only. */
    method Validate() returns (r: Option<string>)
      ensures r == message
    {
      r := message;
    }

    method Required(msg: string := "Required field")
      modifies this`message
      ensures message == Chain.Step(old(message), Fails(Check.Required, value), msg)
    {
      if !Truthy(value) {
        message := Some(msg);
      }
    }

    method NotEmpty(msg: string := "Object must not be empty")
      modifies this`message
      ensures message == Chain.Step(old(message), Fails(Check.NotEmpty, value), msg)
    {
      if !Truthy(value) {
        return;
      }
      if OwnKeys(value) == {} {
        message := Some(msg);
      }
    }

    method HasRequiredProperties(props: seq<string>, msg: string := "Object must contain " + Join(props, ","))
      modifies this`message
      ensures message == Chain.Step(old(message), Fails(Check.HasRequiredProperties(props), value), msg)
    {
      if !Truthy(value) {
        return;
      }
      if !HavePropertiesFixed(value, props) {
        message := Some(msg);
      }
    }

    method HasOnlyAllowedProperties(allowed: seq<string>, msg: string := "Object only can contain " + Join(allowed, ","))
      modifies this`message
      ensures message == Chain.Step(old(message), Fails(Check.HasOnlyAllowedProperties(allowed), value), msg)
    {
      if !Truthy(value) {
        return;
      }
      var keys := OwnKeys(value);
      var remaining := keys;
      while remaining != {}
        invariant remaining <= keys
        invariant message == Chain.Step(old(message), exists k | k in keys - remaining :: k !in allowed, msg)
        decreases |remaining|
      {
        var prop :| prop in remaining;
        if prop !in allowed {
          message := Some(msg);
        }
        remaining := remaining - {prop};
      }
    }
  }

  /** `required` fails exactly on falsy values; every object and array passes it, `{}` included. */
  lemma RequiredIffFalsy(value: JsValue)
    ensures Fails(Required, value) <==> !Truthy(value)
    ensures value.Obj? || value.Arr? ==> !Fails(Required, value)
    ensures Fails(Required, JsValue.Undefined) && Fails(Required, JsValue.Null)
  {
  }

  /** Every check other than `required` is a no-op on a falsy value. */
  lemma FalsyIsIgnored(c: Check, value: JsValue)
    requires !Truthy(value) && !c.Required?
    ensures !Fails(c, value)
  {
  }

  /** `notEmpty` fails exactly on an object with no own keys. */
  lemma NotEmptyOnObjects(props: map<string, JsValue>)
    ensures Fails(NotEmpty, Obj(props)) <==> props == map[]
  {
    OwnKeysEmpty(Obj(props));
  }

  /**
   * `hasOnlyAllowedProperties` looks only at the top-level keys: nested
   * values are not inspected, and an allow-list holding every key passes.
   */
  lemma AllowedPropertiesTopLevelOnly(props: map<string, JsValue>, other: map<string, JsValue>, allowed: seq<string>)
    requires props.Keys == other.Keys
    ensures Fails(HasOnlyAllowedProperties(allowed), Obj(props)) == Fails(HasOnlyAllowedProperties(allowed), Obj(other))
    ensures (forall k | k in props :: k in allowed) ==> !Fails(HasOnlyAllowedProperties(allowed), Obj(props))
  {
  }

  /** `hasRequiredProperties` on plain names; a falsy value is not inspected. */
  lemma RequiredPropertiesExamples()
    ensures !Fails(HasRequiredProperties([]), JsValue.Undefined)
    ensures !Fails(HasRequiredProperties(["hello"]), Obj(map["hello" := Str("world")]))
    ensures Fails(HasRequiredProperties(["hello"]), Obj(map[]))
  {
  }

  /**
   * `hasRequiredProperties` on a nested name, under the corrected path
   * reading: a missing intermediate object is a failure. The helper as
   * written throws a TypeError on the same input.
   */
  lemma NestedRequiredPropertyExamples()
    ensures !Fails(HasRequiredProperties(["a.b"]), Obj(map["a" := Obj(map["b" := Number(Finite(1.0))])]))
    ensures Fails(HasRequiredProperties(["a.b"]), Obj(map[]))
    ensures HaveProperties(Obj(map[]), ["a.b"]) == Thrown
  {
    SplitAB();
    var b := Obj(map["b" := Number(Finite(1.0))]);
    SinglePathFollowed(Obj(map["a" := b]), "a.b");
    SinglePathFollowed(Obj(map[]), "a.b");
    assert PathValue(Obj(map["a" := b]), ["a", "b"]) == PathValue(b, ["b"]);
    assert PathValue(b, ["b"]) == PathValue(Number(Finite(1.0)), []);
    assert PathValue(Obj(map[]), ["a", "b"]) == PathValue(JsValue.Undefined, ["b"]);
    assert PathValue(JsValue.Undefined, ["b"]) == PathValue(JsValue.Undefined, []);
  }
}
