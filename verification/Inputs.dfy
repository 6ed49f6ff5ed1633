/**
  Tool inputs: the load-time check of a tool's input declarations and of their
  defaults, and the call-time check of the arguments.
*/
module Inputs {
  import opened GoText
  import opened Json

  datatype InputType =
    | Untyped
    | AnyType
    | StringType
    | IntegerType
    | NumberType
    | BooleanType
    | ObjectType
    | ArrayType
    | OtherType(name: Text)
  {
    predicate IsNumeric() {
      IntegerType? || NumberType?
    }

    predicate IsScalar() {
      StringType? || IntegerType? || NumberType? || BooleanType?
    }
  }

  /** An input declaration; a Null default means that none was configured. */
  datatype Input = Input(
    kind: InputType,
    required: bool,
    default: Json,
    enum: seq<Text>,
    items: Option<Input>,
    minimum: Option<real>,
    maximum: Option<real>)

  type InputMap = map<Text, Input>

  type Arguments = map<Text, Json>

  /** The check of a declaration when the configuration is loaded. */
  predicate ValidInput(input: Input)
    decreases input
  {
    && !input.kind.AnyType? && !input.kind.OtherType?
    && (input.items.Some? ==> input.kind.ArrayType? && ValidInput(input.items.value))
    && (input.minimum.Some? && input.maximum.Some? ==> input.minimum.value <= input.maximum.value)
    && (input.minimum.Some? || input.maximum.Some? ==> input.kind.IsNumeric())
    && (input.enum != [] ==> input.kind.Untyped? || input.kind.StringType?)
    && (!input.default.Null? ==> AcceptsDefault(input, input.default))
  }

  /** The enum and bound checks, which both checkers end with. */
  predicate WithinEnumAndBounds(input: Input, value: Json) {
    && (input.enum != [] ==> value.String? && value.text in input.enum)
    && (value.Number? && input.minimum.Some? ==> input.minimum.value <= value.number)
    && (value.Number? && input.maximum.Some? ==> value.number <= input.maximum.value)
  }

  /** The load-time checker of defaults. */
  predicate AcceptsDefault(input: Input, value: Json)
    decreases input
  {
    && (match input.kind
        case StringType => value.String?
        case IntegerType => value.Number? && IsIntegral(value.number)
        case NumberType => value.Number?
        case BooleanType => value.Bool?
        case ObjectType => value.Object?
        case ArrayType =>
          && value.Array?
          && (input.items.Some? ==>
              forall i :: 0 <= i < |value.items| ==> AcceptsDefault(input.items.value, value.items[i]))
        case _ => true)
    && WithinEnumAndBounds(input, value)
  }

  /** The call-time checker of argument values. */
  predicate AcceptsValue(input: Input, value: Json)
    decreases input
  {
    if value.Null? then input.kind.Untyped?
    else
      && (match input.kind
          case StringType => value.String?
          case BooleanType => value.Bool?
          case IntegerType => value.Number? && IsIntegral(value.number)
          case NumberType => value.Number?
          case ObjectType => value.Object?
          case ArrayType =>
            && value.Array?
            && (input.items.Some? ==>
                forall i :: 0 <= i < |value.items| ==> AcceptsValue(input.items.value, value.items[i]))
          case _ => true)
      && WithinEnumAndBounds(input, value)
  }

  // ------------------------------------------------- agreement of the two checkers

  /** Some null sits, at an array level that `input` describes, where an enum is declared. */
  predicate NullMeetsEnum(input: Input, value: Json)
    decreases input
  {
    || (value.Null? && input.enum != [])
    || (input.kind.ArrayType? && input.items.Some? && value.Array?
        && exists i :: 0 <= i < |value.items| && NullMeetsEnum(input.items.value, value.items[i]))
  }

  /** The value is not null and no array element, at any depth, is. */
  predicate NullFree(value: Json)
    decreases value
  {
    && !value.Null?
    && (value.Array? ==> forall i :: 0 <= i < |value.items| ==> NullFree(value.items[i]))
  }

  /** For a declaration that loads, the default checker is the value checker minus one case. */
  lemma {:induction false} DefaultCheckerIsValueChecker(input: Input, value: Json)
    requires ValidInput(input)
    ensures AcceptsDefault(input, value) <==> AcceptsValue(input, value) && !NullMeetsEnum(input, value)
    decreases input
  {
    if input.kind.ArrayType? && input.items.Some? && value.Array? {
      forall i | 0 <= i < |value.items|
        ensures AcceptsDefault(input.items.value, value.items[i]) <==>
                AcceptsValue(input.items.value, value.items[i]) && !NullMeetsEnum(input.items.value, value.items[i])
      {
        DefaultCheckerIsValueChecker(input.items.value, value.items[i]);
      }
    }
  }

  /** On null-free values the two checkers agree for every declaration, loadable or not. */
  lemma {:induction false} CheckersAgreeOnNullFreeValues(input: Input, value: Json)
    requires NullFree(value)
    ensures AcceptsDefault(input, value) <==> AcceptsValue(input, value)
    decreases input
  {
    if input.kind.ArrayType? && input.items.Some? && value.Array? {
      forall i | 0 <= i < |value.items|
        ensures AcceptsDefault(input.items.value, value.items[i]) <==> AcceptsValue(input.items.value, value.items[i])
      {
        CheckersAgreeOnNullFreeValues(input.items.value, value.items[i]);
      }
    }
  }

  /** The other direction does fail: an array element may be null at call time but not in a default. */
  lemma DefaultCheckerIsStricterOnNulls()
    ensures
      var color := Input(Untyped, false, Null, ["red"], None, None, None);
      var colors := Input(ArrayType, false, Null, [], Some(color), None, None);
      && ValidInput(colors)
      && AcceptsValue(colors, Array([Null]))
      && !AcceptsDefault(colors, Array([Null]))
  {
    var color := Input(Untyped, false, Null, ["red"], None, None, None);
    assert AcceptsValue(color, Null) && !AcceptsDefault(color, Null);
    assert Array([Null]).items[0] == Null;
  }

  /** A configured default never makes a call fail. */
  lemma ConfiguredDefaultIsAccepted(input: Input)
    requires ValidInput(input) && !input.default.Null?
    ensures AcceptsValue(input, input.default)
  {
    DefaultCheckerIsValueChecker(input, input.default);
  }

  // --------------------------------------------------------------- argument checking

  ghost predicate ValidInputs(inputs: InputMap) {
    forall n :: n in inputs ==> ValidInput(inputs[n])
  }

  /** The defaults of those inputs among `names` that the call leaves out. */
  ghost function DefaultsFor(inputs: InputMap, names: set<Text>, args: Arguments): Arguments
    requires names <= inputs.Keys
  {
    map n | n in names && n !in args && !inputs[n].default.Null? :: inputs[n].default
  }

  /** The arguments with the defaults of the absent inputs added. */
  ghost function Effective(inputs: InputMap, args: Arguments): Arguments {
    args + DefaultsFor(inputs, inputs.Keys, args)
  }

  /** What a caller has to supply for one declared input. */
  ghost predicate Supplied(input: Input, name: Text, args: Arguments) {
    if name in args then AcceptsValue(input, args[name])
    else input.required ==> !input.default.Null?
  }

  /** What a caller has to supply, in terms of the call alone. */
  ghost predicate AcceptableCall(inputs: InputMap, args: Arguments) {
    && args.Keys <= inputs.Keys
    && forall n :: n in inputs ==> Supplied(inputs[n], n, args)
  }

  datatype ArgumentError =
    | UnknownArgument(name: Text)
    | MissingArgument(name: Text)
    | InvalidArgument(name: Text)
  {
    /** The error is about a name that really has the fault. */
    ghost predicate IsFaultOf(inputs: InputMap, args: Arguments) {
      if name in inputs then
        && !UnknownArgument? && (InvalidArgument? <==> name in args)
        && !Supplied(inputs[name], name, args)
      else
        UnknownArgument? && name in args
    }
  }

  datatype ArgumentResult = Accepted(effective: Arguments) | Rejected(error: ArgumentError)

  /**
    Both loops visit a map in an arbitrary order, so only the kind and the
    blamed name of an error are specified, not which of several is reported.
   */
  method ValidateTypedArguments(inputs: InputMap, args: Arguments) returns (r: ArgumentResult)
    requires ValidInputs(inputs)
    ensures r.Accepted? <==> AcceptableCall(inputs, args)
    ensures r.Accepted? ==> r.effective == Effective(inputs, args)
    ensures r.Rejected? ==> r.error.IsFaultOf(inputs, args)
  {
    r := CopyKnownArguments(inputs, args);
    if r.Accepted? {
      r := CheckDeclaredInputs(inputs, args);
    }
    if r.Rejected? {
      FaultRefutesCall(inputs, args, r.error);
    }
  }

  lemma FaultRefutesCall(inputs: InputMap, args: Arguments, error: ArgumentError)
    requires error.IsFaultOf(inputs, args)
    ensures !AcceptableCall(inputs, args)
  {
  }

  method CopyKnownArguments(inputs: InputMap, args: Arguments) returns (r: ArgumentResult)
    ensures r.Accepted? <==> args.Keys <= inputs.Keys
    ensures r.Accepted? ==> r.effective == args
    ensures r.Rejected? ==> r.error.IsFaultOf(inputs, args)
  {
    var effective: Arguments := map[];
    var todo := args.Keys;
    while todo != {}
      invariant todo <= args.Keys
      invariant args.Keys - todo <= inputs.Keys
      invariant effective == map n | n in args.Keys - todo :: args[n]
      decreases |todo|
    {
      var name :| name in todo;
      todo := todo - {name};
      if name !in inputs {
        return Rejected(UnknownArgument(name));
      }
      effective := effective[name := args[name]];
    }
    r := Accepted(effective);
  }

  /** The order in which one execution of a range loop visits the keys of a map. */
  method VisitOrder(keys: set<Text>) returns (order: seq<Text>)
    ensures forall k :: k in order <==> k in keys
  {
    order := [];
    var todo := keys;
    while todo != {}
      invariant todo <= keys
      invariant forall k :: k in order <==> k in keys - todo
      decreases |todo|
    {
      var key :| key in todo;
      todo := todo - {key};
      order := order + [key];
    }
  }

  /** The arguments after the second loop has visited `names`. */
  ghost function WithDefaults(inputs: InputMap, names: seq<Text>, args: Arguments): Arguments
    requires forall n :: n in names ==> n in inputs
  {
    if names == [] then args
    else
      var before := WithDefaults(inputs, names[..|names| - 1], args);
      var n := names[|names| - 1];
      if n !in before && !inputs[n].default.Null? then before[n := inputs[n].default] else before
  }

  lemma AddDefault(inputs: InputMap, done: set<Text>, name: Text, args: Arguments)
    requires done <= inputs.Keys && name in inputs
    ensures
      var before := args + DefaultsFor(inputs, done, args);
      args + DefaultsFor(inputs, done + {name}, args) ==
      if name !in before && !inputs[name].default.Null? then before[name := inputs[name].default] else before
  {
  }

  lemma {:induction false} WithDefaultsAddsDefaults(inputs: InputMap, names: seq<Text>, args: Arguments)
    requires forall n :: n in names ==> n in inputs
    ensures WithDefaults(inputs, names, args) == args + DefaultsFor(inputs, (set n | n in names), args)
  {
    if names != [] {
      var shorter := names[..|names| - 1];
      WithDefaultsAddsDefaults(inputs, shorter, args);
      var n := names[|names| - 1];
      assert (set k | k in names) == (set k | k in shorter) + {n};
      AddDefault(inputs, (set k | k in shorter), n, args);
    }
  }

  lemma {:induction false} WithDefaultsAt(inputs: InputMap, names: seq<Text>, args: Arguments, name: Text)
    requires forall n :: n in names ==> n in inputs
    ensures
      var effective := WithDefaults(inputs, names, args);
      && (name in args ==> name in effective && effective[name] == args[name])
      && (name in effective && name !in args ==>
            name in inputs && !inputs[name].default.Null? && effective[name] == inputs[name].default)
  {
    if names != [] {
      WithDefaultsAt(inputs, names[..|names| - 1], args, name);
    }
  }

  /** The second loop, which starts from a copy of the arguments. */
  method CheckDeclaredInputs(inputs: InputMap, args: Arguments) returns (r: ArgumentResult)
    requires ValidInputs(inputs) && args.Keys <= inputs.Keys
    ensures r.Accepted? ==> AcceptableCall(inputs, args) && r.effective == Effective(inputs, args)
    ensures r.Rejected? ==> r.error.IsFaultOf(inputs, args)
  {
    var order := VisitOrder(inputs.Keys);
    r := CheckInOrder(inputs, order, args);
    AllVisited(inputs, order, args);
  }

  method CheckInOrder(inputs: InputMap, order: seq<Text>, args: Arguments) returns (r: ArgumentResult)
    requires ValidInputs(inputs) && forall n :: n in order ==> n in inputs
    ensures r.Accepted? ==> forall n :: n in order ==> Supplied(inputs[n], n, args)
    ensures r.Accepted? ==> r.effective == WithDefaults(inputs, order, args)
    ensures r.Rejected? ==> r.error.IsFaultOf(inputs, args)
  {
    r := Accepted(args);
    for i := 0 to |order|
      invariant r == Accepted(WithDefaults(inputs, order[..i], args))
      invariant forall j :: 0 <= j < i ==> Supplied(inputs[order[j]], order[j], args)
    {
      assert order[..i + 1][..i] == order[..i];
      WithDefaultsAt(inputs, order[..i], args, order[i]);
      r := CheckInput(inputs, order[i], r.effective, args);
      if r.Rejected? {
        return;
      }
    }
    assert order[..|order|] == order;
  }

  lemma AllVisited(inputs: InputMap, order: seq<Text>, args: Arguments)
    requires forall n :: n in order <==> n in inputs
    ensures WithDefaults(inputs, order, args) == Effective(inputs, args)
  {
    WithDefaultsAddsDefaults(inputs, order, args);
    assert (set n | n in order) == inputs.Keys;
  }

  /** The body of that loop for one input. */
  method CheckInput(inputs: InputMap, name: Text, effective: Arguments, ghost args: Arguments)
    returns (r: ArgumentResult)
    requires ValidInputs(inputs) && name in inputs
    requires name in args ==> name in effective && effective[name] == args[name]
    requires name in effective && name !in args ==>
               effective[name] == inputs[name].default && !inputs[name].default.Null?
    ensures r.Accepted? <==> Supplied(inputs[name], name, args)
    ensures r.Accepted? ==>
              r.effective == if name !in effective && !inputs[name].default.Null?
                             then effective[name := inputs[name].default] else effective
    ensures r.Rejected? ==> r.error.name == name && r.error.IsFaultOf(inputs, args)
  {
    var input := inputs[name];
    var next := effective;
    if !input.default.Null? {
      ConfiguredDefaultIsAccepted(input);
    }
    if name !in next && !input.default.Null? {
      next := next[name := input.default];
    }
    if name !in next {
      if input.required {
        return Rejected(MissingArgument(name));
      }
    } else if !AcceptsValue(input, next[name]) {
      return Rejected(InvalidArgument(name));
    }
    r := Accepted(next);
  }

  /** What the rest of the call pipeline may rely on after the check. */
  ghost predicate CheckedArguments(inputs: InputMap, effective: Arguments) {
    && effective.Keys <= inputs.Keys
    && (forall n :: n in effective ==> AcceptsValue(inputs[n], effective[n]))
    && (forall n :: n in inputs && (inputs[n].required || !inputs[n].default.Null?) ==> n in effective)
  }

  lemma AcceptedArgumentsAreChecked(inputs: InputMap, args: Arguments)
    requires ValidInputs(inputs) && AcceptableCall(inputs, args)
    ensures CheckedArguments(inputs, Effective(inputs, args))
  {
    var effective := Effective(inputs, args);
    forall n | n in effective
      ensures AcceptsValue(inputs[n], effective[n])
    {
      if n !in args {
        ConfiguredDefaultIsAccepted(inputs[n]);
      }
    }
  }
}
