/**
  The load-time template checker, and what it guarantees: a checked template
  applied to checked arguments fails only for a value that nests too deep or a
  composite value in a format string.
 */
module TemplateSoundness {
  import opened GoText
  import opened Json
  import opened Inputs
  import opened Template

  /** The input is always present once the arguments have been checked. */
  predicate AlwaysPresent(input: Input) {
    input.required || !input.default.Null?
  }

  /** validateHTTPTemplateDepth. */
  predicate Valid(t: Json, inputs: InputMap, depth: nat)
    decreases t
  {
    && depth <= MAX_DEPTH
    && match t
       case Object(fields) =>
         if ARG in fields then
           && fields[ARG].String? && IsInputName(fields[ARG].text) && fields[ARG].text in inputs
           && (|| AlwaysPresent(inputs[fields[ARG].text])
               || DEFAULT in fields
               || (OMIT in fields && fields[OMIT] == Bool(true)))
           && (forall k :: k in fields ==> k == ARG || k == DEFAULT || (k == OMIT && fields[k].Bool?))
           && (DEFAULT in fields ==> Valid(fields[DEFAULT], inputs, depth + 1))
         else if FORMAT in fields then
           && fields[FORMAT].String?
           && (forall n :: n in FormatNames(fields[FORMAT].text, 0) ==> n in inputs && AlwaysPresent(inputs[n]))
           && |fields| == 1
         else
           forall k :: k in fields ==> Valid(fields[k], inputs, depth + 1)
       case Array(items) => forall i :: 0 <= i < |items| ==> Valid(items[i], inputs, depth + 1)
       case _ => true
  }

  // ------------------------------------------------------ the two remaining failures

  /** Every argument that rendering inserts stays within the depth limit where it is inserted. */
  ghost predicate ArgumentsFit(t: Json, args: Arguments, depth: nat)
    decreases t
  {
    match t
    case Object(fields) =>
      if ARG in fields then
        if fields[ARG].String? && fields[ARG].text in args then Fits(args[fields[ARG].text], depth + 1, MAX_DEPTH)
        else DEFAULT in fields ==> ArgumentsFit(fields[DEFAULT], args, depth + 1)
      else FORMAT in fields || forall k :: k in fields ==> ArgumentsFit(fields[k], args, depth + 1)
    case Array(items) => forall i :: 0 <= i < |items| ==> ArgumentsFit(items[i], args, depth + 1)
    case _ => true
  }

  /** Every argument that rendering puts into a format string is a scalar. */
  ghost predicate FormatsScalars(t: Json, args: Arguments)
    decreases t
  {
    match t
    case Object(fields) =>
      if ARG in fields then
        (fields[ARG].String? && fields[ARG].text in args) || (DEFAULT in fields ==> FormatsScalars(fields[DEFAULT], args))
      else if FORMAT in fields then
        fields[FORMAT].String? ==>
          forall n :: n in FormatNames(fields[FORMAT].text, 0) && n in args ==> args[n].IsScalar()
      else forall k :: k in fields ==> FormatsScalars(fields[k], args)
    case Array(items) => forall i :: 0 <= i < |items| ==> FormatsScalars(items[i], args)
    case _ => true
  }

  /** The template is an $arg that is absent, falls back to nothing, and may be omitted. */
  ghost predicate Omits(t: Json, args: Arguments)
    decreases t
  {
    && t.Object? && ARG in t.fields && t.fields[ARG].String? && t.fields[ARG].text !in args
    && (DEFAULT in t.fields ==> Omits(t.fields[DEFAULT], args))
  }

  /** A sound rendering: it fails exactly when one of the two admitted causes is present. */
  ghost predicate Sound(o: Outcome, fits: bool, scalars: bool, omits: bool) {
    && (o.Failed? <==> !(fits && scalars))
    && (o.Failed? ==> o.faults <= {ArgumentTooDeep, FormatNotScalar})
    && (o.Failed? && ArgumentTooDeep in o.faults ==> !fits)
    && (o.Failed? && FormatNotScalar in o.faults ==> !scalars)
    && (o.Omitted? <==> fits && scalars && omits)
  }

  lemma {:induction false} FormatIsSound(text: Text, i: nat, inputs: InputMap, args: Arguments, sprint: Json -> Text)
    requires i <= |text| && CheckedArguments(inputs, args)
    requires forall n :: n in FormatNames(text, i) ==> n in inputs && AlwaysPresent(inputs[n])
    ensures
      var scalars := forall n :: n in FormatNames(text, i) && n in args ==> args[n].IsScalar();
      var o := Format(text, i, args, sprint);
      if scalars then o.Formatted? else o == FormatFault(FormatNotScalar)
    decreases |text| - i
  {
    if i < |text| {
      match PlaceholderEnd(text, i)
      case Some(end) =>
        assert text[i + 1..end - 1] in FormatNames(text, i);
        FormatIsSound(text, end, inputs, args, sprint);
      case None =>
        FormatIsSound(text, i + 1, inputs, args, sprint);
    }
  }

  ghost predicate SoundAt(t: Json, args: Arguments, sprint: Json -> Text, depth: nat) {
    Sound(Render(t, args, sprint, depth), ArgumentsFit(t, args, depth), FormatsScalars(t, args), Omits(t, args))
  }

  lemma ArgIsSound(fields: map<Text, Json>, inputs: InputMap, args: Arguments, sprint: Json -> Text, depth: nat)
    requires ARG in fields && Valid(Object(fields), inputs, depth) && CheckedArguments(inputs, args)
    requires DEFAULT in fields ==> SoundAt(fields[DEFAULT], args, sprint, depth + 1)
    ensures SoundAt(Object(fields), args, sprint, depth)
  {
    VisibleStartIsNotBlank(fields[ARG].text);
  }

  lemma FormatTemplateIsSound(fields: map<Text, Json>, inputs: InputMap, args: Arguments, sprint: Json -> Text, depth: nat)
    requires ARG !in fields && FORMAT in fields && Valid(Object(fields), inputs, depth) && CheckedArguments(inputs, args)
    ensures SoundAt(Object(fields), args, sprint, depth)
  {
    FormatIsSound(fields[FORMAT].text, 0, inputs, args, sprint);
  }

  /** Type soundness of the template language. */
  lemma {:induction false} RenderingIsSound(t: Json, inputs: InputMap, args: Arguments, sprint: Json -> Text, depth: nat)
    requires Valid(t, inputs, depth) && CheckedArguments(inputs, args)
    ensures SoundAt(t, args, sprint, depth)
    decreases t, 1
  {
    match t
    case Object(fields) =>
      if ARG in fields {
        if DEFAULT in fields {
          RenderingIsSound(fields[DEFAULT], inputs, args, sprint, depth + 1);
        }
        ArgIsSound(fields, inputs, args, sprint, depth);
      } else if FORMAT in fields {
        FormatTemplateIsSound(fields, inputs, args, sprint, depth);
      } else {
        forall k | k in fields
          ensures SoundAt(fields[k], args, sprint, depth + 1)
        {
          RenderingIsSound(fields[k], inputs, args, sprint, depth + 1);
        }
        PlainObjectIsSound(fields, args, sprint, depth);
      }
    case Array(items) =>
      ItemsAreSound(items, inputs, args, sprint, depth + 1);
    case _ =>
  }

  lemma PlainObjectIsSound(fields: map<Text, Json>, args: Arguments, sprint: Json -> Text, depth: nat)
    requires IsPlain(fields) && depth <= MAX_DEPTH
    requires forall k :: k in fields ==> SoundAt(fields[k], args, sprint, depth + 1)
    ensures SoundAt(Object(fields), args, sprint, depth)
  {
    var o := Render(Object(fields), args, sprint, depth);
    if key :| key in fields && Render(fields[key], args, sprint, depth + 1).Failed? {
      var fault :| fault in Render(fields[key], args, sprint, depth + 1).faults;
      PlainObjectFails(fields, key, fault, args, sprint, depth);
      forall f | f in o.faults
        ensures f in {ArgumentTooDeep, FormatNotScalar}
        ensures f == ArgumentTooDeep ==> !ArgumentsFit(Object(fields), args, depth)
        ensures f == FormatNotScalar ==> !FormatsScalars(Object(fields), args)
      {
        var k := PlainObjectBlames(fields, f, args, sprint, depth);
      }
    } else {
      PlainObjectRenders(fields, args, sprint, depth);
    }
  }

  ghost predicate AllFit(items: seq<Json>, args: Arguments, depth: nat) {
    forall i :: 0 <= i < |items| ==> ArgumentsFit(items[i], args, depth)
  }

  ghost predicate AllFormatScalars(items: seq<Json>, args: Arguments) {
    forall i :: 0 <= i < |items| ==> FormatsScalars(items[i], args)
  }

  lemma AllSplit(items: seq<Json>, args: Arguments, depth: nat)
    requires items != []
    ensures AllFit(items, args, depth) <==> ArgumentsFit(items[0], args, depth) && AllFit(items[1..], args, depth)
    ensures AllFormatScalars(items, args) <==> FormatsScalars(items[0], args) && AllFormatScalars(items[1..], args)
  {
    assert items == [items[0]] + items[1..];
  }

  lemma {:induction false} ItemsAreSound(items: seq<Json>, inputs: InputMap, args: Arguments, sprint: Json -> Text, depth: nat)
    requires forall i :: 0 <= i < |items| ==> Valid(items[i], inputs, depth)
    requires CheckedArguments(inputs, args)
    ensures Sound(RenderItems(items, args, sprint, depth), AllFit(items, args, depth), AllFormatScalars(items, args), false)
    decreases items, 0
  {
    if items != [] {
      AllSplit(items, args, depth);
      RenderingIsSound(items[0], inputs, args, sprint, depth);
      ItemsAreSound(items[1..], inputs, args, sprint, depth);
    }
  }

  // ------------------------------------------------------------ scalar format inputs

  /** Every input that a format string of the template names has a scalar type. */
  ghost predicate FormatInputsAreScalar(t: Json, inputs: InputMap)
    decreases t
  {
    match t
    case Object(fields) =>
      if ARG in fields then DEFAULT in fields ==> FormatInputsAreScalar(fields[DEFAULT], inputs)
      else if FORMAT in fields then
        fields[FORMAT].String? ==>
          forall n :: n in FormatNames(fields[FORMAT].text, 0) && n in inputs ==> inputs[n].kind.IsScalar()
      else forall k :: k in fields ==> FormatInputsAreScalar(fields[k], inputs)
    case Array(items) => forall i :: 0 <= i < |items| ==> FormatInputsAreScalar(items[i], inputs)
    case _ => true
  }

  lemma {:induction false} ScalarTypesFormatScalars(t: Json, inputs: InputMap, args: Arguments)
    requires CheckedArguments(inputs, args) && FormatInputsAreScalar(t, inputs)
    ensures FormatsScalars(t, args)
    decreases t
  {
    match t
    case Object(fields) =>
      if ARG in fields {
        if DEFAULT in fields {
          ScalarTypesFormatScalars(fields[DEFAULT], inputs, args);
        }
      } else if FORMAT !in fields {
        forall k | k in fields
          ensures FormatsScalars(fields[k], args)
        {
          ScalarTypesFormatScalars(fields[k], inputs, args);
        }
      }
    case Array(items) =>
      forall i | 0 <= i < |items|
        ensures FormatsScalars(items[i], args)
      {
        ScalarTypesFormatScalars(items[i], inputs, args);
      }
    case _ =>
  }

  /**
    End to end: which rendering errors a caller of a checked tool can ever see.
    For a body, to be omitted is one of them.
   */
  lemma CheckedCallRenders(t: Json, inputs: InputMap, args: Arguments, sprint: Json -> Text)
    requires ValidInputs(inputs) && Valid(t, inputs, 0) && AcceptableCall(inputs, args)
    ensures
      var effective := Effective(inputs, args);
      var o := Render(t, effective, sprint, 0);
      && (o.Failed? <==> !ArgumentsFit(t, effective, 0) || !FormatsScalars(t, effective))
      && (o.Failed? ==> o.faults <= {ArgumentTooDeep, FormatNotScalar})
      && (FormatInputsAreScalar(t, inputs) && o.Failed? ==> o.faults == {ArgumentTooDeep})
      && (o.Omitted? <==> ArgumentsFit(t, effective, 0) && FormatsScalars(t, effective) && Omits(t, effective))
  {
    var effective := Effective(inputs, args);
    AcceptedArgumentsAreChecked(inputs, args);
    RenderingIsSound(t, inputs, effective, sprint, 0);
    if FormatInputsAreScalar(t, inputs) {
      ScalarTypesFormatScalars(t, inputs, effective);
    }
  }

  // ------------------------------------------------------ calls that cannot fail

  /** Every $arg of the template names an input of scalar type and lies above the deepest level. */
  ghost predicate ArgumentsAreShallowScalars(t: Json, inputs: InputMap, depth: nat)
    decreases t
  {
    match t
    case Object(fields) =>
      if ARG in fields then
        && depth < MAX_DEPTH
        && (fields[ARG].String? && fields[ARG].text in inputs ==> inputs[fields[ARG].text].kind.IsScalar())
        && (DEFAULT in fields ==> ArgumentsAreShallowScalars(fields[DEFAULT], inputs, depth + 1))
      else FORMAT in fields || forall k :: k in fields ==> ArgumentsAreShallowScalars(fields[k], inputs, depth + 1)
    case Array(items) => forall i :: 0 <= i < |items| ==> ArgumentsAreShallowScalars(items[i], inputs, depth + 1)
    case _ => true
  }

  lemma {:induction false} ShallowScalarsFit(t: Json, inputs: InputMap, args: Arguments, depth: nat)
    requires CheckedArguments(inputs, args) && ArgumentsAreShallowScalars(t, inputs, depth)
    ensures ArgumentsFit(t, args, depth)
    decreases t
  {
    match t
    case Object(fields) =>
      if ARG in fields {
        if DEFAULT in fields {
          ShallowScalarsFit(fields[DEFAULT], inputs, args, depth + 1);
        }
      } else if FORMAT !in fields {
        forall k | k in fields
          ensures ArgumentsFit(fields[k], args, depth + 1)
        {
          ShallowScalarsFit(fields[k], inputs, args, depth + 1);
        }
      }
    case Array(items) =>
      forall i | 0 <= i < |items|
        ensures ArgumentsFit(items[i], args, depth + 1)
      {
        ShallowScalarsFit(items[i], inputs, args, depth + 1);
      }
    case _ =>
  }

  /**
    What the author of a tool can check once and for all: if every input that the
    template uses is a scalar, and no $arg lies at the deepest level, no call that
    is accepted fails to render.
   */
  lemma ScalarToolsNeverFail(t: Json, inputs: InputMap, args: Arguments, sprint: Json -> Text)
    requires ValidInputs(inputs) && Valid(t, inputs, 0) && AcceptableCall(inputs, args)
    requires ArgumentsAreShallowScalars(t, inputs, 0) && FormatInputsAreScalar(t, inputs)
    ensures
      var effective := Effective(inputs, args);
      var o := Render(t, effective, sprint, 0);
      !o.Failed? && (o.Omitted? <==> Omits(t, effective))
  {
    var effective := Effective(inputs, args);
    AcceptedArgumentsAreChecked(inputs, args);
    ShallowScalarsFit(t, inputs, effective, 0);
    ScalarTypesFormatScalars(t, inputs, effective);
    CheckedCallRenders(t, inputs, args, sprint);
  }

  /** The limit is reachable by a scalar: an $arg at the deepest template level always fails. */
  lemma DeepestArgumentFails(name: Text, args: Arguments, sprint: Json -> Text)
    requires TrimSpace(name) != [] && name in args
    ensures Render(Object(map[ARG := String(name)]), args, sprint, MAX_DEPTH) == Failed({ArgumentTooDeep})
  {
  }
}
