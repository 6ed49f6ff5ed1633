/**
  What the argument checker accepts, told element by element, and what a call
  amounts to once it is accepted.
 */
module InputMeaning {
  import opened GoText
  import opened Json
  import opened Inputs

  /** The declaration of what lies that many arrays deep. */
  function DeclaredAt(input: Input, levels: nat): Option<Input>
    decreases levels
  {
    if levels == 0 then Some(input)
    else if input.kind.ArrayType? && input.items.Some? then DeclaredAt(input.items.value, levels - 1)
    else None
  }

  function ElementAt(value: Json, path: seq<nat>): Option<Json> {
    if path == [] then Some(value)
    else if value.Array? && path[0] < |value.items| then ElementAt(value.items[path[0]], path[1..])
    else None
  }

  /** The value is of the declared type; an integer is a number without a fraction that fits 64 bits. */
  predicate IsOfType(value: Json, kind: InputType) {
    match kind
    case StringType => value.String?
    case IntegerType =>
      value.Number? && value.number.Floor as real == value.number
      && -9223372036854775808 <= value.number.Floor <= 9223372036854775807
    case NumberType => value.Number?
    case BooleanType => value == Bool(true) || value == Bool(false)
    case ObjectType => value.Object?
    case ArrayType => value.Array?
    case _ => true
  }

  /** One of the listed texts, if there is a list. */
  predicate IsListed(value: Json, enum: seq<Text>) {
    enum == [] || exists i :: 0 <= i < |enum| && value == String(enum[i])
  }

  /** A number is neither below the minimum nor above the maximum. */
  predicate IsInRange(value: Json, minimum: Option<real>, maximum: Option<real>) {
    && !(value.Number? && minimum.Some? && value.number < minimum.value)
    && !(value.Number? && maximum.Some? && maximum.value < value.number)
  }

  predicate ElementFits(input: Input, value: Json) {
    if value == Null then input.kind == Untyped
    else IsOfType(value, input.kind) && IsListed(value, input.enum) && IsInRange(value, input.minimum, input.maximum)
  }

  /** Every element that is declared is as declared. */
  ghost predicate AllElementsFit(input: Input, value: Json) {
    forall path :: DeclaredAt(input, |path|).Some? && ElementAt(value, path).Some? ==>
      ElementFits(DeclaredAt(input, |path|).value, ElementAt(value, path).value)
  }

  /** The check of one value, apart from the elements of an array. */
  lemma CheckHere(input: Input, value: Json)
    ensures AcceptsValue(input, value) <==>
              && ElementFits(input, value)
              && (input.kind.ArrayType? && input.items.Some? && value.Array? ==>
                    forall i :: 0 <= i < |value.items| ==> AcceptsValue(input.items.value, value.items[i]))
  {
    ListedIff(value, input.enum);
  }

  lemma ListedIff(value: Json, enum: seq<Text>)
    ensures IsListed(value, enum) <==> enum == [] || (value.String? && value.text in enum)
  {
    if value.String? && value.text in enum {
      var i :| 0 <= i < |enum| && enum[i] == value.text;
    }
  }

  lemma {:induction false} AcceptedElementFits(input: Input, value: Json, path: seq<nat>)
    requires AcceptsValue(input, value) && DeclaredAt(input, |path|).Some? && ElementAt(value, path).Some?
    ensures ElementFits(DeclaredAt(input, |path|).value, ElementAt(value, path).value)
    decreases |path|
  {
    CheckHere(input, value);
    if path != [] {
      AcceptedElementFits(input.items.value, value.items[path[0]], path[1..]);
    }
  }

  lemma ElementsOfElement(input: Input, value: Json, i: nat)
    requires AllElementsFit(input, value)
    requires input.kind.ArrayType? && input.items.Some? && value.Array? && i < |value.items|
    ensures AllElementsFit(input.items.value, value.items[i])
  {
    var inner, element := input.items.value, value.items[i];
    forall path | DeclaredAt(inner, |path|).Some? && ElementAt(element, path).Some?
      ensures ElementFits(DeclaredAt(inner, |path|).value, ElementAt(element, path).value)
    {
      var longer := [i] + path;
      assert longer[1..] == path && |longer| == |path| + 1;
      assert ElementAt(value, longer) == ElementAt(element, path);
      assert DeclaredAt(input, |longer|) == DeclaredAt(inner, |path|);
    }
  }

  lemma {:induction false} FittingElementsAreAccepted(input: Input, value: Json)
    requires AllElementsFit(input, value)
    ensures AcceptsValue(input, value)
    decreases input
  {
    assert DeclaredAt(input, 0) == Some(input) && ElementAt(value, []) == Some(value);
    if input.kind.ArrayType? && input.items.Some? && value.Array? {
      forall i | 0 <= i < |value.items|
        ensures AcceptsValue(input.items.value, value.items[i])
      {
        ElementsOfElement(input, value, i);
        FittingElementsAreAccepted(input.items.value, value.items[i]);
      }
    }
    CheckHere(input, value);
  }

  /** The checker is exact: a value is accepted iff every declared element of it has its type, list and range. */
  lemma AcceptedIff(input: Input, value: Json)
    ensures AcceptsValue(input, value) <==> AllElementsFit(input, value)
  {
    if AcceptsValue(input, value) {
      forall path | DeclaredAt(input, |path|).Some? && ElementAt(value, path).Some?
        ensures ElementFits(DeclaredAt(input, |path|).value, ElementAt(value, path).value)
      {
        AcceptedElementFits(input, value, path);
      }
    }
    if AllElementsFit(input, value) {
      FittingElementsAreAccepted(input, value);
    }
  }

  // ------------------------------------------------------------------ declarations

  /** One declaration by itself: each constraint only with a type that it can constrain, and a default that meets them. */
  predicate IsGoodDeclaration(input: Input) {
    && input.kind in {Untyped, StringType, IntegerType, NumberType, BooleanType, ObjectType, ArrayType}
    && (input.items != None ==> input.kind == ArrayType)
    && (input.minimum != None || input.maximum != None ==> input.kind in {IntegerType, NumberType})
    && (input.minimum.Some? && input.maximum.Some? ==> !(input.maximum.value < input.minimum.value))
    && (input.enum != [] ==> input.kind in {Untyped, StringType})
    && (input.default != Null ==> AcceptsDefault(input, input.default))
  }

  /** So is the declaration, and what it declares of the elements of arrays, at every depth. */
  ghost predicate IsGoodAtEveryLevel(input: Input) {
    forall levels: nat :: DeclaredAt(input, levels).Some? ==> IsGoodDeclaration(DeclaredAt(input, levels).value)
  }

  lemma {:induction false} LoadedDeclarationIsGood(input: Input, levels: nat)
    requires ValidInput(input) && DeclaredAt(input, levels).Some?
    ensures IsGoodDeclaration(DeclaredAt(input, levels).value)
    decreases levels
  {
    if levels > 0 {
      LoadedDeclarationIsGood(input.items.value, levels - 1);
    }
  }

  lemma {:induction false} GoodDeclarationsLoad(input: Input)
    requires IsGoodAtEveryLevel(input)
    ensures ValidInput(input)
    decreases input
  {
    assert DeclaredAt(input, 0) == Some(input);
    if input.items.Some? {
      forall levels: nat | DeclaredAt(input.items.value, levels).Some?
        ensures IsGoodDeclaration(DeclaredAt(input.items.value, levels).value)
      {
        assert DeclaredAt(input, levels + 1) == DeclaredAt(input.items.value, levels);
      }
      GoodDeclarationsLoad(input.items.value);
    }
  }

  /** Exactly which declarations load: those that are good by themselves at every level of arrays. */
  lemma DeclarationLoadsIff(input: Input)
    ensures ValidInput(input) <==> IsGoodAtEveryLevel(input)
  {
    if ValidInput(input) {
      forall levels: nat | DeclaredAt(input, levels).Some?
        ensures IsGoodDeclaration(DeclaredAt(input, levels).value)
      {
        LoadedDeclarationIsGood(input, levels);
      }
    }
    if IsGoodAtEveryLevel(input) {
      GoodDeclarationsLoad(input);
    }
  }

  // ------------------------------------------------------------------- whole calls

  /** What a call amounts to: what is given, else what is configured as the default, else nothing. */
  lemma EffectiveAt(inputs: InputMap, args: Arguments, n: Text)
    ensures
      var effective := Effective(inputs, args);
      if n in args then n in effective && effective[n] == args[n]
      else if n in inputs && inputs[n].default != Null then n in effective && effective[n] == inputs[n].default
      else n !in effective
  {
  }

  /** A call is accepted iff it names declared inputs only and amounts to checked arguments: none is refused in vain. */
  lemma AcceptableIff(inputs: InputMap, args: Arguments)
    requires ValidInputs(inputs)
    ensures AcceptableCall(inputs, args) <==>
              args.Keys <= inputs.Keys && CheckedArguments(inputs, Effective(inputs, args))
  {
    if AcceptableCall(inputs, args) {
      AcceptedArgumentsAreChecked(inputs, args);
    } else if args.Keys <= inputs.Keys && CheckedArguments(inputs, Effective(inputs, args)) {
      forall n | n in inputs
        ensures Supplied(inputs[n], n, args)
      {
        EffectiveAt(inputs, args, n);
      }
    }
  }
}
