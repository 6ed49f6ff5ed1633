/**
  What rendering never does: it does not interpret argument values, does not
  build results beyond the depth limit, does not touch templates without
  markers, and does not look at arguments the template does not mention.
 */
module TemplateHygiene {
  import opened GoText
  import opened Json
  import opened Inputs
  import opened Template
  import opened FormatStrings

  // ------------------------------------------------------------- what goes where

  /** One step down a template, or down a value; a fallback is the $default of an absent argument. */
  datatype Step = Field(name: Text) | Index(i: nat) | Fallback

  /** The node of the template that the path leads to, through what is rendered. */
  ghost function NodeAt(t: Json, path: seq<Step>, args: Arguments): Option<Json>
    decreases |path|
  {
    if path == [] then Some(t)
    else
      match path[0]
      case Field(k) =>
        if t.Object? && IsPlain(t.fields) && k in t.fields then NodeAt(t.fields[k], path[1..], args) else None
      case Index(i) => if t.Array? && i < |t.items| then NodeAt(t.items[i], path[1..], args) else None
      case Fallback => if FallsBack(t, args) then NodeAt(t.fields[DEFAULT], path[1..], args) else None
  }

  /** An $arg that is absent and has a $default. */
  predicate FallsBack(t: Json, args: Arguments) {
    t.Object? && ARG in t.fields && t.fields[ARG].String? && t.fields[ARG].text !in args && DEFAULT in t.fields
  }

  /** An $arg that is absent, down to the last $default, and may be omitted. */
  predicate IsLeftOut(t: Json, args: Arguments)
    decreases t
  {
    && t.Object? && ARG in t.fields && t.fields[ARG].String? && t.fields[ARG].text !in args
    && if DEFAULT in t.fields then IsLeftOut(t.fields[DEFAULT], args)
       else OMIT in t.fields && t.fields[OMIT] == Bool(true)
  }

  /** How many of the first `i` items are not left out. */
  function Kept(items: seq<Json>, i: nat, args: Arguments): nat
    requires i <= |items|
  {
    if i == 0 then 0 else (if IsLeftOut(items[0], args) then 0 else 1) + Kept(items[1..], i - 1, args)
  }

  /** Where in the result that place of the template is: omitted items close up, and a fallback takes no step. */
  ghost function ResultPath(t: Json, path: seq<Step>, args: Arguments): seq<Step>
    requires NodeAt(t, path, args).Some?
    decreases |path|
  {
    if path == [] then []
    else
      match path[0]
      case Field(k) => [Field(k)] + ResultPath(t.fields[k], path[1..], args)
      case Index(i) => [Index(Kept(t.items, i, args))] + ResultPath(t.items[i], path[1..], args)
      case Fallback => ResultPath(t.fields[DEFAULT], path[1..], args)
  }

  /** The node of a value at the end of a path. */
  function At(v: Json, path: seq<Step>): Option<Json>
    decreases |path|
  {
    if path == [] then Some(v)
    else
      match path[0]
      case Field(k) => if v.Object? && k in v.fields then At(v.fields[k], path[1..]) else None
      case Index(i) => if v.Array? && i < |v.items| then At(v.items[i], path[1..]) else None
      case Fallback => None
  }

  lemma AtField(v: Json, k: Text, rest: seq<Step>)
    requires v.Object? && k in v.fields
    ensures At(v, [Field(k)] + rest) == At(v.fields[k], rest)
  {
    assert ([Field(k)] + rest)[1..] == rest;
  }

  lemma AtIndex(v: Json, i: nat, rest: seq<Step>)
    requires v.Array? && i < |v.items|
    ensures At(v, [Index(i)] + rest) == At(v.items[i], rest)
  {
    assert ([Index(i)] + rest)[1..] == rest;
  }

  /** Unless it fails, rendering omits exactly what is left out, at every depth. */
  lemma {:induction false} OmittedIff(t: Json, args: Arguments, sprint: Json -> Text, depth: nat)
    ensures Render(t, args, sprint, depth).Omitted? <==> !Render(t, args, sprint, depth).Failed? && IsLeftOut(t, args)
    decreases t
  {
    if t.Object? && ARG in t.fields && DEFAULT in t.fields {
      OmittedIff(t.fields[DEFAULT], args, sprint, depth + 1);
    }
  }

  /** The path leads to a node that is not left out. */
  ghost predicate Reaches(t: Json, path: seq<Step>, node: Json, args: Arguments) {
    NodeAt(t, path, args) == Some(node) && !IsLeftOut(node, args)
  }

  lemma {:induction false} ReachedIsNotLeftOut(t: Json, path: seq<Step>, node: Json, args: Arguments)
    requires Reaches(t, path, node, args)
    ensures !IsLeftOut(t, args)
    decreases |path|
  {
    if path != [] && path[0].Fallback? {
      ReachedIsNotLeftOut(t.fields[DEFAULT], path[1..], node, args);
    }
  }

  lemma FieldIsRendered(fields: map<Text, Json>, k: Text, args: Arguments, sprint: Json -> Text, depth: nat)
    requires IsPlain(fields) && k in fields && !IsLeftOut(fields[k], args)
    requires Render(Object(fields), args, sprint, depth).Rendered?
    ensures
      var result, child := Render(Object(fields), args, sprint, depth).value, Render(fields[k], args, sprint, depth + 1);
      child.Rendered? && result.Object? && k in result.fields && result.fields[k] == child.value
  {
    forall k | k in fields
      ensures !Render(fields[k], args, sprint, depth + 1).Failed?
    {
      if Render(fields[k], args, sprint, depth + 1).Failed? {
        var fault :| fault in Render(fields[k], args, sprint, depth + 1).faults;
        PlainObjectFails(fields, k, fault, args, sprint, depth);
      }
    }
    PlainObjectRenders(fields, args, sprint, depth);
    OmittedIff(fields[k], args, sprint, depth + 1);
  }

  lemma HeadIsRendered(items: seq<Json>, args: Arguments, sprint: Json -> Text, depth: nat)
    requires items != [] && RenderItems(items, args, sprint, depth).Rendered?
    ensures
      var first, rest := Render(items[0], args, sprint, depth), RenderItems(items[1..], args, sprint, depth);
      && rest.Rendered? && (first.Rendered? <==> !IsLeftOut(items[0], args))
      && RenderItems(items, args, sprint, depth).value.items ==
           (if first.Rendered? then [first.value] else []) + rest.value.items
  {
    OmittedIff(items[0], args, sprint, depth);
  }

  lemma {:induction false} ItemIsRendered(items: seq<Json>, i: nat, args: Arguments, sprint: Json -> Text, depth: nat)
    requires i < |items| && !IsLeftOut(items[i], args) && RenderItems(items, args, sprint, depth).Rendered?
    ensures
      var results, child := RenderItems(items, args, sprint, depth).value.items, Render(items[i], args, sprint, depth);
      child.Rendered? && Kept(items, i, args) < |results| && results[Kept(items, i, args)] == child.value
    decreases i
  {
    HeadIsRendered(items, args, sprint, depth);
    if i > 0 {
      ItemIsRendered(items[1..], i - 1, args, sprint, depth);
    }
  }

  /** If the whole renders, so does the part, and the result has it at that place. */
  ghost predicate IsPartOf(whole: Outcome, place: seq<Step>, part: Outcome) {
    whole.Rendered? ==> part.Rendered? && At(whole.value, place) == Some(part.value)
  }

  /** The node, rendered by itself, is part of the rendered template at the place of the path. */
  ghost predicate IsPlaced(t: Json, path: seq<Step>, node: Json, args: Arguments, sprint: Json -> Text, depth: nat)
    requires Reaches(t, path, node, args)
  {
    IsPartOf(Render(t, args, sprint, depth), ResultPath(t, path, args), Render(node, args, sprint, depth + |path|))
  }

  lemma FieldIsPart(fields: map<Text, Json>, k: Text, place: seq<Step>, part: Outcome, args: Arguments,
                    sprint: Json -> Text, depth: nat)
    requires IsPlain(fields) && k in fields && !IsLeftOut(fields[k], args)
    requires IsPartOf(Render(fields[k], args, sprint, depth + 1), place, part)
    ensures IsPartOf(Render(Object(fields), args, sprint, depth), [Field(k)] + place, part)
  {
    if Render(Object(fields), args, sprint, depth).Rendered? {
      FieldIsRendered(fields, k, args, sprint, depth);
      AtField(Render(Object(fields), args, sprint, depth).value, k, place);
    }
  }

  lemma ItemIsPart(items: seq<Json>, i: nat, place: seq<Step>, part: Outcome, args: Arguments, sprint: Json -> Text,
                   depth: nat)
    requires i < |items| && !IsLeftOut(items[i], args)
    requires IsPartOf(Render(items[i], args, sprint, depth + 1), place, part)
    ensures IsPartOf(Render(Array(items), args, sprint, depth), [Index(Kept(items, i, args))] + place, part)
  {
    if Render(Array(items), args, sprint, depth).Rendered? {
      ItemIsRendered(items, i, args, sprint, depth + 1);
      AtIndex(Render(Array(items), args, sprint, depth).value, Kept(items, i, args), place);
    }
  }

  lemma FieldStep(fields: map<Text, Json>, path: seq<Step>, node: Json, args: Arguments, sprint: Json -> Text, depth: nat)
    requires path != [] && path[0].Field? && Reaches(Object(fields), path, node, args)
    requires IsPlaced(fields[path[0].name], path[1..], node, args, sprint, depth + 1)
    ensures IsPlaced(Object(fields), path, node, args, sprint, depth)
  {
    var k, part := path[0].name, Render(node, args, sprint, depth + |path|);
    ReachedIsNotLeftOut(fields[k], path[1..], node, args);
    FieldIsPart(fields, k, ResultPath(fields[k], path[1..], args), part, args, sprint, depth);
  }

  lemma IndexStep(items: seq<Json>, path: seq<Step>, node: Json, args: Arguments, sprint: Json -> Text, depth: nat)
    requires path != [] && path[0].Index? && Reaches(Array(items), path, node, args)
    requires IsPlaced(items[path[0].i], path[1..], node, args, sprint, depth + 1)
    ensures IsPlaced(Array(items), path, node, args, sprint, depth)
  {
    var i, part := path[0].i, Render(node, args, sprint, depth + |path|);
    ReachedIsNotLeftOut(items[i], path[1..], node, args);
    ItemIsPart(items, i, ResultPath(items[i], path[1..], args), part, args, sprint, depth);
  }

  lemma FallbackIsRendered(t: Json, place: seq<Step>, part: Outcome, args: Arguments, sprint: Json -> Text, depth: nat)
    requires FallsBack(t, args) && IsPartOf(Render(t.fields[DEFAULT], args, sprint, depth + 1), place, part)
    ensures IsPartOf(Render(t, args, sprint, depth), place, part)
  {
  }

  lemma FallbackStep(t: Json, path: seq<Step>, node: Json, args: Arguments, sprint: Json -> Text, depth: nat)
    requires path != [] && path[0].Fallback? && FallsBack(t, args)
    requires Reaches(t.fields[DEFAULT], path[1..], node, args)
    requires IsPlaced(t.fields[DEFAULT], path[1..], node, args, sprint, depth + 1)
    ensures Reaches(t, path, node, args) && IsPlaced(t, path, node, args, sprint, depth)
  {
    var part := Render(node, args, sprint, depth + |path|);
    FallbackIsRendered(t, ResultPath(t.fields[DEFAULT], path[1..], args), part, args, sprint, depth);
  }

  /** Rendering is compositional: each part of the template is rendered by itself, and put in its place. */
  lemma {:induction false} PartsArePlaced(
    t: Json, path: seq<Step>, node: Json, args: Arguments, sprint: Json -> Text, depth: nat)
    requires Reaches(t, path, node, args)
    ensures IsPlaced(t, path, node, args, sprint, depth)
    decreases |path|
  {
    if path != [] {
      match path[0]
      case Field(k) =>
        PartsArePlaced(t.fields[k], path[1..], node, args, sprint, depth + 1);
        FieldStep(t.fields, path, node, args, sprint, depth);
      case Index(i) =>
        PartsArePlaced(t.items[i], path[1..], node, args, sprint, depth + 1);
        IndexStep(t.items, path, node, args, sprint, depth);
      case Fallback =>
        PartsArePlaced(t.fields[DEFAULT], path[1..], node, args, sprint, depth + 1);
        FallbackStep(t, path, node, args, sprint, depth);
    }
  }

  /** If the template renders, the result has this value at the place of the path. */
  ghost predicate HasValue(t: Json, path: seq<Step>, value: Json, args: Arguments, sprint: Json -> Text, depth: nat)
    requires NodeAt(t, path, args).Some?
  {
    var o := Render(t, args, sprint, depth);
    o.Rendered? ==> At(o.value, ResultPath(t, path, args)) == Some(value)
  }

  /**
    Wherever the template has {$arg: name}, in objects, in arrays and in the
    defaults of absent arguments, the result has the argument's value, whatever
    the value contains; markers inside it are not interpreted.
   */
  lemma ArgumentsAreVerbatim(
    t: Json, path: seq<Step>, fields: map<Text, Json>, name: Text, args: Arguments, sprint: Json -> Text, depth: nat)
    requires NodeAt(t, path, args) == Some(Object(fields)) && ARG in fields && fields[ARG] == String(name) && name in args
    ensures HasValue(t, path, args[name], args, sprint, depth)
  {
    PartsArePlaced(t, path, Object(fields), args, sprint, depth);
  }

  /**
    Wherever the template has {$format: text}, the result has the text with each
    name in braces replaced by what is printed for its argument.
   */
  lemma FormatsAreFilledIn(t: Json, path: seq<Step>, fields: map<Text, Json>, literals: seq<Text>, names: seq<Text>,
                           args: Arguments, sprint: Json -> Text, depth: nat)
    requires NodeAt(t, path, args) == Some(Object(fields)) && ARG !in fields && FORMAT in fields
    requires ArePieces(literals, names) && fields[FORMAT] == String(Written(literals, names)) && AllPrintable(names, args)
    ensures forall n :: n in names ==> n in args
    ensures HasValue(t, path, String(Substituted(literals, names, args, sprint)), args, sprint, depth)
    ensures path == [] && depth <= MAX_DEPTH ==> Render(t, args, sprint, depth).Rendered?
  {
    var text := Written(literals, names);
    assert text[0..] == text;
    FormatFillsIn(text, 0, literals, names, args, sprint);
    PartsArePlaced(t, path, Object(fields), args, sprint, depth);
  }

  /** Wherever the template has no markers, the result has what the template has. */
  lemma LiteralsAreKept(t: Json, path: seq<Step>, node: Json, args: Arguments, sprint: Json -> Text, depth: nat)
    requires NodeAt(t, path, args) == Some(node) && MarkerFree(node)
    ensures HasValue(t, path, node, args, sprint, depth)
  {
    PartsArePlaced(t, path, node, args, sprint, depth);
    MarkerFreeTemplatesAreLiteral(node, args, sprint, depth + |path|);
  }

  /** Nothing else appears: a result has the fields and the items of its template that are not left out. */
  lemma NothingElseAppears(t: Json, args: Arguments, sprint: Json -> Text, depth: nat)
    requires Render(t, args, sprint, depth).Rendered?
    ensures
      var value := Render(t, args, sprint, depth).value;
      && (t.Object? && IsPlain(t.fields) ==>
            value.Object? && forall k :: k in value.fields <==> k in t.fields && !IsLeftOut(t.fields[k], args))
      && (t.Array? ==> value.Array? && |value.items| == Kept(t.items, |t.items|, args))
  {
    if t.Object? && IsPlain(t.fields) {
      FieldsOfResult(t.fields, args, sprint, depth);
    } else if t.Array? {
      ItemsOfResult(t.items, args, sprint, depth + 1);
    }
  }

  lemma FieldsOfResult(fields: map<Text, Json>, args: Arguments, sprint: Json -> Text, depth: nat)
    requires IsPlain(fields) && Render(Object(fields), args, sprint, depth).Rendered?
    ensures
      var value := Render(Object(fields), args, sprint, depth).value;
      value.Object? && forall k :: k in value.fields <==> k in fields && !IsLeftOut(fields[k], args)
  {
    forall k | k in fields
      ensures Render(fields[k], args, sprint, depth + 1).Rendered? <==> !IsLeftOut(fields[k], args)
    {
      OmittedIff(fields[k], args, sprint, depth + 1);
      if Render(fields[k], args, sprint, depth + 1).Failed? {
        var fault :| fault in Render(fields[k], args, sprint, depth + 1).faults;
        PlainObjectFails(fields, k, fault, args, sprint, depth);
      }
    }
  }

  lemma {:induction false} ItemsOfResult(items: seq<Json>, args: Arguments, sprint: Json -> Text, depth: nat)
    requires RenderItems(items, args, sprint, depth).Rendered?
    ensures |RenderItems(items, args, sprint, depth).value.items| == Kept(items, |items|, args)
  {
    if items != [] {
      OmittedIff(items[0], args, sprint, depth);
      ItemsOfResult(items[1..], args, sprint, depth);
    }
  }

  // ------------------------------------------------------------- results are bounded

  lemma ArgStaysWithinTheLimit(fields: map<Text, Json>, args: Arguments, sprint: Json -> Text, depth: nat)
    requires ARG in fields && Render(Object(fields), args, sprint, depth).Rendered?
    requires DEFAULT in fields && Render(fields[DEFAULT], args, sprint, depth + 1).Rendered? ==>
               Fits(Render(fields[DEFAULT], args, sprint, depth + 1).value, depth + 1, MAX_DEPTH)
    ensures Fits(Render(Object(fields), args, sprint, depth).value, depth, MAX_DEPTH)
  {
    if fields[ARG].text in args {
      FitsHigher(args[fields[ARG].text], depth, depth + 1, MAX_DEPTH);
    } else {
      FitsHigher(Render(fields[DEFAULT], args, sprint, depth + 1).value, depth, depth + 1, MAX_DEPTH);
    }
  }

  lemma PlainObjectStaysWithinTheLimit(fields: map<Text, Json>, args: Arguments, sprint: Json -> Text, depth: nat)
    requires IsPlain(fields) && Render(Object(fields), args, sprint, depth).Rendered?
    requires forall k :: k in fields && Render(fields[k], args, sprint, depth + 1).Rendered? ==>
               Fits(Render(fields[k], args, sprint, depth + 1).value, depth + 1, MAX_DEPTH)
    ensures Fits(Render(Object(fields), args, sprint, depth).value, depth, MAX_DEPTH)
  {
    var result := Render(Object(fields), args, sprint, depth).value.fields;
    forall k | k in result
      ensures Fits(result[k], depth + 1, MAX_DEPTH)
    {
      assert result[k] == Render(fields[k], args, sprint, depth + 1).value;
    }
  }

  /** No node of a result that is rendered at depth `depth` lies below the limit. */
  lemma {:induction false} ResultsStayWithinTheLimit(t: Json, args: Arguments, sprint: Json -> Text, depth: nat)
    requires Render(t, args, sprint, depth).Rendered?
    ensures Fits(Render(t, args, sprint, depth).value, depth, MAX_DEPTH)
    decreases t, 1
  {
    match t
    case Object(fields) =>
      if ARG in fields {
        if DEFAULT in fields && Render(fields[DEFAULT], args, sprint, depth + 1).Rendered? {
          ResultsStayWithinTheLimit(fields[DEFAULT], args, sprint, depth + 1);
        }
        ArgStaysWithinTheLimit(fields, args, sprint, depth);
      } else if FORMAT !in fields {
        forall k | k in fields && Render(fields[k], args, sprint, depth + 1).Rendered?
          ensures Fits(Render(fields[k], args, sprint, depth + 1).value, depth + 1, MAX_DEPTH)
        {
          ResultsStayWithinTheLimit(fields[k], args, sprint, depth + 1);
        }
        PlainObjectStaysWithinTheLimit(fields, args, sprint, depth);
      }
    case Array(items) =>
      ItemsStayWithinTheLimit(items, args, sprint, depth + 1);
    case _ =>
  }

  lemma {:induction false} ItemsStayWithinTheLimit(items: seq<Json>, args: Arguments, sprint: Json -> Text, depth: nat)
    requires RenderItems(items, args, sprint, depth).Rendered?
    ensures
      var results := RenderItems(items, args, sprint, depth).value.items;
      forall i :: 0 <= i < |results| ==> Fits(results[i], depth, MAX_DEPTH)
    decreases items, 0
  {
    if items != [] {
      if Render(items[0], args, sprint, depth).Rendered? {
        ResultsStayWithinTheLimit(items[0], args, sprint, depth);
      }
      ItemsStayWithinTheLimit(items[1..], args, sprint, depth);
    }
  }

  // ------------------------------------------------- templates without markers are data

  ghost predicate MarkerFree(t: Json)
    decreases t
  {
    match t
    case Object(fields) => IsPlain(fields) && forall k :: k in fields ==> MarkerFree(fields[k])
    case Array(items) => forall i :: 0 <= i < |items| ==> MarkerFree(items[i])
    case _ => true
  }

  ghost function Literally(t: Json, depth: nat): Outcome {
    if Fits(t, depth, MAX_DEPTH) then Rendered(t) else Failed({TemplateTooDeep})
  }

  /** A template without markers renders to itself, or is too deep. */
  lemma {:induction false} MarkerFreeTemplatesAreLiteral(t: Json, args: Arguments, sprint: Json -> Text, depth: nat)
    requires MarkerFree(t)
    ensures Render(t, args, sprint, depth) == Literally(t, depth)
    decreases t, 1
  {
    if depth <= MAX_DEPTH {
      match t
      case Object(fields) =>
        forall k | k in fields
          ensures Render(fields[k], args, sprint, depth + 1) == Literally(fields[k], depth + 1)
        {
          MarkerFreeTemplatesAreLiteral(fields[k], args, sprint, depth + 1);
        }
        PlainObjectIsLiteral(fields, args, sprint, depth);
      case Array(items) =>
        ItemsAreLiteral(items, args, sprint, depth + 1);
      case _ =>
    }
  }

  lemma PlainObjectIsLiteral(fields: map<Text, Json>, args: Arguments, sprint: Json -> Text, depth: nat)
    requires IsPlain(fields) && depth <= MAX_DEPTH
    requires forall k :: k in fields ==> Render(fields[k], args, sprint, depth + 1) == Literally(fields[k], depth + 1)
    ensures Render(Object(fields), args, sprint, depth) == Literally(Object(fields), depth)
  {
    var o := Render(Object(fields), args, sprint, depth);
    if key :| key in fields && !Fits(fields[key], depth + 1, MAX_DEPTH) {
      PlainObjectFails(fields, key, TemplateTooDeep, args, sprint, depth);
      forall f | f in o.faults
        ensures f == TemplateTooDeep
      {
        var k := PlainObjectBlames(fields, f, args, sprint, depth);
      }
      assert o.faults == {TemplateTooDeep};
    } else {
      PlainObjectRenders(fields, args, sprint, depth);
      assert RenderFields(fields, fields.Keys, args, sprint, depth + 1) == fields;
    }
  }

  lemma {:induction false} ItemsAreLiteral(items: seq<Json>, args: Arguments, sprint: Json -> Text, depth: nat)
    requires forall i :: 0 <= i < |items| ==> MarkerFree(items[i])
    ensures RenderItems(items, args, sprint, depth) ==
            if forall i :: 0 <= i < |items| ==> Fits(items[i], depth, MAX_DEPTH) then Rendered(Array(items))
            else Failed({TemplateTooDeep})
    decreases items, 0
  {
    if items != [] {
      assert items == [items[0]] + items[1..];
      MarkerFreeTemplatesAreLiteral(items[0], args, sprint, depth);
      ItemsAreLiteral(items[1..], args, sprint, depth);
    }
  }

  /** One level around another: objects where the list says so, and arrays elsewhere. */
  function Nested(objects: seq<bool>): Json {
    if objects == [] then Null
    else if objects[0] then Object(map["k" := Nested(objects[1..])])
    else Array([Nested(objects[1..])])
  }

  lemma {:induction false} NestedFits(objects: seq<bool>, depth: nat)
    ensures Fits(Nested(objects), depth, MAX_DEPTH) <==> depth + |objects| <= 64
    ensures MarkerFree(Nested(objects))
  {
    if objects != [] {
      var inner := Nested(objects[1..]);
      NestedFits(objects[1..], depth + 1);
      if objects[0] {
        assert Nested(objects).fields["k"] == inner;
      } else {
        assert Nested(objects).items[0] == inner;
      }
    }
  }

  /** The limit in levels: a body of 64 levels below its root renders, one of 65 does not. */
  lemma SixtyFourLevelsRender(objects: seq<bool>, args: Arguments, sprint: Json -> Text)
    ensures Render(Nested(objects), args, sprint, 0) ==
            if |objects| <= 64 then Rendered(Nested(objects)) else Failed({TemplateTooDeep})
  {
    NestedFits(objects, 0);
    MarkerFreeTemplatesAreLiteral(Nested(objects), args, sprint, 0);
  }

  // --------------------------------------------------------------- rendering is local

  /** The template names the input in an $arg or a $format. */
  ghost predicate Mentions(t: Json, name: Text)
    decreases t
  {
    match t
    case Object(fields) =>
      if ARG in fields then fields[ARG] == String(name) || (DEFAULT in fields && Mentions(fields[DEFAULT], name))
      else if FORMAT in fields then fields[FORMAT].String? && name in FormatNames(fields[FORMAT].text, 0)
      else exists k :: k in fields && Mentions(fields[k], name)
    case Array(items) => exists i :: 0 <= i < |items| && Mentions(items[i], name)
    case _ => false
  }

  ghost predicate SameArgument(a: Arguments, b: Arguments, name: Text) {
    (name in a <==> name in b) && (name in a ==> a[name] == b[name])
  }

  ghost predicate AgreeOn(t: Json, a: Arguments, b: Arguments) {
    forall n :: Mentions(t, n) ==> SameArgument(a, b, n)
  }

  lemma {:induction false} FormatIsLocal(text: Text, i: nat, a: Arguments, b: Arguments, sprint: Json -> Text)
    requires i <= |text|
    requires forall n :: n in FormatNames(text, i) ==> SameArgument(a, b, n)
    ensures Format(text, i, a, sprint) == Format(text, i, b, sprint)
    decreases |text| - i
  {
    if i < |text| {
      match PlaceholderEnd(text, i)
      case Some(end) =>
        assert text[i + 1..end - 1] in FormatNames(text, i);
        FormatIsLocal(text, end, a, b, sprint);
      case None =>
        FormatIsLocal(text, i + 1, a, b, sprint);
    }
  }

  lemma ArgIsLocal(fields: map<Text, Json>, a: Arguments, b: Arguments, sprint: Json -> Text, depth: nat)
    requires ARG in fields && AgreeOn(Object(fields), a, b)
    requires DEFAULT in fields ==>
               Render(fields[DEFAULT], a, sprint, depth + 1) == Render(fields[DEFAULT], b, sprint, depth + 1)
    ensures Render(Object(fields), a, sprint, depth) == Render(Object(fields), b, sprint, depth)
  {
    if fields[ARG].String? {
      assert Mentions(Object(fields), fields[ARG].text);
    }
  }

  lemma FormatTemplateIsLocal(fields: map<Text, Json>, a: Arguments, b: Arguments, sprint: Json -> Text, depth: nat)
    requires ARG !in fields && FORMAT in fields && AgreeOn(Object(fields), a, b)
    ensures Render(Object(fields), a, sprint, depth) == Render(Object(fields), b, sprint, depth)
  {
    if fields[FORMAT].String? {
      forall n | n in FormatNames(fields[FORMAT].text, 0)
        ensures SameArgument(a, b, n)
      {
        assert Mentions(Object(fields), n);
      }
      FormatIsLocal(fields[FORMAT].text, 0, a, b, sprint);
    }
  }

  /** What a part of a template mentions, the template mentions. */
  lemma FieldsAgree(fields: map<Text, Json>, a: Arguments, b: Arguments)
    requires AgreeOn(Object(fields), a, b)
    ensures ARG in fields && DEFAULT in fields ==> AgreeOn(fields[DEFAULT], a, b)
    ensures IsPlain(fields) ==> forall k :: k in fields ==> AgreeOn(fields[k], a, b)
  {
    forall k, n | k in fields && Mentions(fields[k], n) && (IsPlain(fields) || (ARG in fields && k == DEFAULT))
      ensures SameArgument(a, b, n)
    {
      assert Mentions(Object(fields), n);
    }
  }

  lemma ItemsAgree(items: seq<Json>, a: Arguments, b: Arguments)
    requires AgreeOn(Array(items), a, b)
    ensures forall i :: 0 <= i < |items| ==> AgreeOn(items[i], a, b)
  {
    forall i, n | 0 <= i < |items| && Mentions(items[i], n)
      ensures SameArgument(a, b, n)
    {
      assert Mentions(Array(items), n);
    }
  }

  /** Arguments that agree on the names a template mentions give the same outcome. */
  lemma {:induction false} RenderingIsLocal(t: Json, a: Arguments, b: Arguments, sprint: Json -> Text, depth: nat)
    requires AgreeOn(t, a, b)
    ensures Render(t, a, sprint, depth) == Render(t, b, sprint, depth)
    decreases t, 1
  {
    match t
    case Object(fields) =>
      FieldsAgree(fields, a, b);
      if ARG in fields {
        if DEFAULT in fields {
          RenderingIsLocal(fields[DEFAULT], a, b, sprint, depth + 1);
        }
        ArgIsLocal(fields, a, b, sprint, depth);
      } else if FORMAT in fields {
        FormatTemplateIsLocal(fields, a, b, sprint, depth);
      } else {
        forall k | k in fields
          ensures Render(fields[k], a, sprint, depth + 1) == Render(fields[k], b, sprint, depth + 1)
        {
          RenderingIsLocal(fields[k], a, b, sprint, depth + 1);
        }
        PlainObjectIsLocal(fields, a, b, sprint, depth);
      }
    case Array(items) =>
      ItemsAgree(items, a, b);
      ItemsAreLocal(items, a, b, sprint, depth + 1);
    case _ =>
  }

  lemma PlainObjectIsLocal(fields: map<Text, Json>, a: Arguments, b: Arguments, sprint: Json -> Text, depth: nat)
    requires IsPlain(fields)
    requires forall k :: k in fields ==> Render(fields[k], a, sprint, depth + 1) == Render(fields[k], b, sprint, depth + 1)
    ensures Render(Object(fields), a, sprint, depth) == Render(Object(fields), b, sprint, depth)
  {
    assert (set k | k in fields :: Render(fields[k], a, sprint, depth + 1)) ==
           (set k | k in fields :: Render(fields[k], b, sprint, depth + 1));
    assert (map k | k in fields && Render(fields[k], a, sprint, depth + 1).Rendered?
              :: Render(fields[k], a, sprint, depth + 1).value) ==
           (map k | k in fields && Render(fields[k], b, sprint, depth + 1).Rendered?
              :: Render(fields[k], b, sprint, depth + 1).value);
  }

  lemma {:induction false} ItemsAreLocal(items: seq<Json>, a: Arguments, b: Arguments, sprint: Json -> Text, depth: nat)
    requires forall i :: 0 <= i < |items| ==> AgreeOn(items[i], a, b)
    ensures RenderItems(items, a, sprint, depth) == RenderItems(items, b, sprint, depth)
    decreases items, 0
  {
    if items != [] {
      RenderingIsLocal(items[0], a, b, sprint, depth);
      ItemsAreLocal(items[1..], a, b, sprint, depth);
    }
  }
}
