/**
  The template language of typed HTTP tools: $arg, $default, $omit_if_missing
  and $format. `Valid` is the load-time checker, `Render` says what rendering
  means, and the methods are the rendering loops.
 */
module Template {
  import opened GoText
  import opened Json
  import opened Inputs

  const MAX_DEPTH: nat := 64
  const ARG: Text := "$arg"
  const DEFAULT: Text := "$default"
  const OMIT: Text := "$omit_if_missing"
  const FORMAT: Text := "$format"

  datatype Fault =
    | TemplateTooDeep
    | BadArgument
    | MissingInput
    | FormatNotText
    | MissingFormatInput
    | FormatNotScalar
    | ArgumentTooDeep

  /**
    The meaning of a template. Objects are visited in an arbitrary order, so a
    failure carries every fault that some order would report.
   */
  datatype Outcome = Rendered(value: Json) | Omitted | Failed(faults: set<Fault>)

  /** What one execution of the renderer returns. */
  datatype Report = Value(value: Json) | Absent | Error(fault: Fault)

  /** The report is one that the outcome allows. */
  ghost predicate Admits(outcome: Outcome, report: Report) {
    match outcome
    case Rendered(v) => report == Value(v)
    case Omitted => report == Absent
    case Failed(faults) => report.Error? && report.fault in faults
  }

  // --------------------------------------------------------------- format strings

  predicate IsNameStart(c: Byte) {
    c == '_' || 'a' <= c <= 'z' || 'A' <= c <= 'Z'
  }

  predicate IsNameByte(c: Byte) {
    IsNameStart(c) || '0' <= c <= '9' || c == '-'
  }

  /** Matches ^[A-Za-z_][A-Za-z0-9_-]*$. */
  predicate IsInputName(name: Text) {
    name != [] && IsNameStart(name[0]) && forall i :: 0 <= i < |name| ==> IsNameByte(name[i])
  }

  function NameEnd(text: Text, i: nat): (end: nat)
    requires i <= |text|
    ensures i <= end <= |text|
    decreases |text| - i
  {
    if i < |text| && IsNameByte(text[i]) then NameEnd(text, i + 1) else i
  }

  /** The end of the placeholder {name} that starts at `i`, if one does. */
  function PlaceholderEnd(text: Text, i: nat): (end: Option<nat>)
    requires i < |text|
    ensures end.Some? ==> i + 3 <= end.value <= |text|
  {
    if text[i] == '{' && i + 1 < |text| && IsNameStart(text[i + 1]) then
      var j := NameEnd(text, i + 1);
      if i + 2 <= j < |text| && text[j] == '}' then Some(j + 1) else None
    else None
  }

  /** The positions of all placeholders from `i` on, leftmost first and not overlapping. */
  function Placeholders(text: Text, i: nat): (found: seq<(nat, nat)>)
    requires i <= |text|
    ensures forall k :: 0 <= k < |found| ==> i <= found[k].0 && found[k].0 + 3 <= found[k].1 <= |text|
    ensures forall k, l :: 0 <= k < l < |found| ==> found[k].1 <= found[l].0
    decreases |text| - i
  {
    if i == |text| then []
    else
      match PlaceholderEnd(text, i)
      case Some(end) => [(i, end)] + Placeholders(text, end)
      case None => Placeholders(text, i + 1)
  }

  /** The inputs that a format string names. */
  function FormatNames(text: Text, i: nat): set<Text>
    requires i <= |text|
    decreases |text| - i
  {
    if i == |text| then {}
    else
      match PlaceholderEnd(text, i)
      case Some(end) => {text[i + 1..end - 1]} + FormatNames(text, end)
      case None => FormatNames(text, i + 1)
  }

  datatype FormatOutcome = Formatted(text: Text) | FormatFault(fault: Fault)

  /** Substitutes the placeholders from position `i` on; the leftmost fault wins. */
  ghost function Format(text: Text, i: nat, args: Arguments, sprint: Json -> Text): FormatOutcome
    requires i <= |text|
    decreases |text| - i
  {
    if i == |text| then Formatted([])
    else
      match PlaceholderEnd(text, i)
      case Some(end) =>
        var name := text[i + 1..end - 1];
        if name !in args then FormatFault(MissingFormatInput)
        else if !args[name].IsScalar() then FormatFault(FormatNotScalar)
        else Prepend(sprint(args[name]), Format(text, end, args, sprint))
      case None => Prepend([text[i]], Format(text, i + 1, args, sprint))
  }

  ghost function Prepend(head: Text, rest: FormatOutcome): FormatOutcome {
    if rest.Formatted? then Formatted(head + rest.text) else rest
  }

  // ------------------------------------------------------------ meaning of a template

  ghost function Inserted(value: Json, depth: nat): Outcome {
    if Fits(value, depth, MAX_DEPTH) then Rendered(value) else Failed({ArgumentTooDeep})
  }

  ghost function Render(t: Json, args: Arguments, sprint: Json -> Text, depth: nat): (o: Outcome)
    ensures o.Failed? ==> o.faults != {}
    decreases t, 1
  {
    if depth > MAX_DEPTH then Failed({TemplateTooDeep})
    else
      match t
      case Object(fields) =>
        if ARG in fields then
          if !fields[ARG].String? || TrimSpace(fields[ARG].text) == [] then Failed({BadArgument})
          else if fields[ARG].text in args then Inserted(args[fields[ARG].text], depth + 1)
          else if DEFAULT in fields then Render(fields[DEFAULT], args, sprint, depth + 1)
          else if OMIT in fields && fields[OMIT] == Bool(true) then Omitted
          else Failed({MissingInput})
        else if FORMAT in fields then
          if !fields[FORMAT].String? then Failed({FormatNotText})
          else
            match Format(fields[FORMAT].text, 0, args, sprint)
            case Formatted(text) => Rendered(String(text))
            case FormatFault(fault) => Failed({fault})
        else
          var faults := FaultsOf(set k | k in fields :: Render(fields[k], args, sprint, depth + 1));
          if faults != {} then Failed(faults)
          else
            Rendered(Object(map k | k in fields && Render(fields[k], args, sprint, depth + 1).Rendered?
                              :: Render(fields[k], args, sprint, depth + 1).value))
      case Array(items) => RenderItems(items, args, sprint, depth + 1)
      case _ => Rendered(t)
  }

  ghost predicate Reports(o: Outcome, fault: Fault) {
    o.Failed? && fault in o.faults
  }

  ghost function FaultsOf(outcomes: set<Outcome>): set<Fault> {
    set o, f | o in outcomes && Reports(o, f) :: f
  }

  /** The elements of an array in order; the first one that fails decides. */
  ghost function RenderItems(items: seq<Json>, args: Arguments, sprint: Json -> Text, depth: nat): (o: Outcome)
    ensures o.Rendered? ==> o.value.Array?
    ensures !o.Omitted?
    ensures o.Failed? ==> o.faults != {}
    decreases items, 0
  {
    if items == [] then Rendered(Array([]))
    else
      var first := Render(items[0], args, sprint, depth);
      if first.Failed? then first
      else
        var rest := RenderItems(items[1..], args, sprint, depth);
        if rest.Failed? then rest
        else Rendered(Array((if first.Rendered? then [first.value] else []) + rest.value.items))
  }

  /** The rendered fields among `names`, omitted ones left out. */
  ghost function RenderFields(fields: map<Text, Json>, names: set<Text>, args: Arguments, sprint: Json -> Text,
                              depth: nat): map<Text, Json>
    requires names <= fields.Keys
  {
    map k | k in names && Render(fields[k], args, sprint, depth).Rendered? :: Render(fields[k], args, sprint, depth).value
  }

  predicate IsPlain(fields: map<Text, Json>) {
    ARG !in fields && FORMAT !in fields
  }

  lemma PlainObjectFails(fields: map<Text, Json>, key: Text, fault: Fault, args: Arguments, sprint: Json -> Text, depth: nat)
    requires IsPlain(fields) && depth <= MAX_DEPTH && key in fields
    requires Reports(Render(fields[key], args, sprint, depth + 1), fault)
    ensures Reports(Render(Object(fields), args, sprint, depth), fault)
  {
    var outcomes := set k | k in fields :: Render(fields[k], args, sprint, depth + 1);
    assert Render(fields[key], args, sprint, depth + 1) in outcomes;
    assert fault in FaultsOf(outcomes);
  }

  lemma PlainObjectBlames(fields: map<Text, Json>, fault: Fault, args: Arguments, sprint: Json -> Text, depth: nat)
    returns (key: Text)
    requires IsPlain(fields) && depth <= MAX_DEPTH
    requires Reports(Render(Object(fields), args, sprint, depth), fault)
    ensures key in fields && Reports(Render(fields[key], args, sprint, depth + 1), fault)
  {
    var outcomes := set k | k in fields :: Render(fields[k], args, sprint, depth + 1);
    assert fault in FaultsOf(outcomes);
    var o :| o in outcomes && Reports(o, fault);
    key :| key in fields && Render(fields[key], args, sprint, depth + 1) == o;
  }

  lemma PlainObjectRenders(fields: map<Text, Json>, args: Arguments, sprint: Json -> Text, depth: nat)
    requires IsPlain(fields) && depth <= MAX_DEPTH
    requires forall k :: k in fields ==> !Render(fields[k], args, sprint, depth + 1).Failed?
    ensures Render(Object(fields), args, sprint, depth) ==
            Rendered(Object(RenderFields(fields, fields.Keys, args, sprint, depth + 1)))
  {
    var outcomes := set k | k in fields :: Render(fields[k], args, sprint, depth + 1);
    assert FaultsOf(outcomes) == {};
    assert RenderFields(fields, fields.Keys, args, sprint, depth + 1) ==
      map k | k in fields && Render(fields[k], args, sprint, depth + 1).Rendered?
        :: Render(fields[k], args, sprint, depth + 1).value;
  }

  lemma RenderOneMore(fields: map<Text, Json>, done: set<Text>, key: Text, args: Arguments, sprint: Json -> Text, depth: nat)
    requires done <= fields.Keys && key in fields && key !in done
    ensures
      var before := RenderFields(fields, done, args, sprint, depth);
      var outcome := Render(fields[key], args, sprint, depth);
      RenderFields(fields, done + {key}, args, sprint, depth) ==
      if outcome.Rendered? then before[key := outcome.value] else before
  {
  }

  // ------------------------------------------------------------------ the renderer

  /** cloneJSONValue: a deep copy, which is the value itself unless it nests too deep. */
  method CloneJson(value: Json, depth: nat) returns (r: Report)
    ensures r == if Fits(value, depth, MAX_DEPTH) then Value(value) else Error(ArgumentTooDeep)
    decreases value, 1
  {
    if depth > MAX_DEPTH {
      return Error(ArgumentTooDeep);
    }
    match value
    case Object(_) =>
      r := CloneFields(value, depth + 1);
    case Array(items) =>
      r := CloneItems(items, depth + 1);
    case _ =>
      r := Value(value);
  }

  method CloneFields(value: Json, depth: nat) returns (r: Report)
    requires value.Object?
    ensures r == if forall k :: k in value.fields ==> Fits(value.fields[k], depth, MAX_DEPTH) then Value(value)
                 else Error(ArgumentTooDeep)
    decreases value, 0
  {
    var result: map<Text, Json> := map[];
    var todo := value.fields.Keys;
    while todo != {}
      invariant todo <= value.fields.Keys
      invariant result.Keys == value.fields.Keys - todo
      invariant forall k :: k in result ==> result[k] == value.fields[k] && Fits(value.fields[k], depth, MAX_DEPTH)
      decreases |todo|
    {
      var key :| key in todo;
      todo := todo - {key};
      var cloned := CloneJson(value.fields[key], depth);
      if cloned.Error? {
        return cloned;
      }
      result := result[key := cloned.value];
    }
    assert result == value.fields;
    r := Value(Object(result));
  }

  method CloneItems(items: seq<Json>, depth: nat) returns (r: Report)
    ensures r == if forall i :: 0 <= i < |items| ==> Fits(items[i], depth, MAX_DEPTH) then Value(Array(items))
                 else Error(ArgumentTooDeep)
    decreases items, 0
  {
    var result: seq<Json> := [];
    for i := 0 to |items|
      invariant result == items[..i]
      invariant forall j :: 0 <= j < i ==> Fits(items[j], depth, MAX_DEPTH)
    {
      var cloned := CloneJson(items[i], depth);
      if cloned.Error? {
        return cloned;
      }
      result := result + [cloned.value];
    }
    assert items[..|items|] == items;
    r := Value(Array(result));
  }

  lemma {:induction false} FormatOfLiteral(text: Text, i: nat, args: Arguments, sprint: Json -> Text)
    requires i <= |text| && Placeholders(text, i) == []
    ensures Format(text, i, args, sprint) == Formatted(text[i..])
    decreases |text| - i
  {
    if i < |text| {
      FormatOfLiteral(text, i + 1, args, sprint);
      assert [text[i]] + text[i + 1..] == text[i..];
    }
  }

  lemma {:induction false} FormatSkipsLiteral(text: Text, i: nat, start: nat, end: nat, args: Arguments,
                                              sprint: Json -> Text)
    requires i <= |text| && Placeholders(text, i) != [] && Placeholders(text, i)[0] == (start, end)
    ensures i <= start && PlaceholderEnd(text, start) == Some(end)
    ensures Placeholders(text, i)[1..] == Placeholders(text, end)
    ensures Format(text, i, args, sprint) == Prepend(text[i..start], Format(text, start, args, sprint))
    decreases |text| - i
  {
    if PlaceholderEnd(text, i).None? {
      FormatSkipsLiteral(text, i + 1, start, end, args, sprint);
      assert [text[i]] + text[i + 1..start] == text[i..start];
    } else {
      assert text[i..i] == [];
    }
  }

  /** A placeholder stands for its argument, or decides the outcome. */
  lemma FormatSubstitutes(text: Text, start: nat, end: nat, args: Arguments, sprint: Json -> Text)
    requires start < |text| && PlaceholderEnd(text, start) == Some(end)
    ensures
      var name := text[start + 1..end - 1];
      Format(text, start, args, sprint) ==
      if name !in args then FormatFault(MissingFormatInput)
      else if !args[name].IsScalar() then FormatFault(FormatNotScalar)
      else Prepend(sprint(args[name]), Format(text, end, args, sprint))
  {
  }

  lemma PrependTwice(a: Text, b: Text, rest: FormatOutcome)
    ensures Prepend(a, Prepend(b, rest)) == Prepend(a + b, rest)
  {
    if rest.Formatted? {
      assert a + (b + rest.text) == a + b + rest.text;
    }
  }

  /** The $format loop: copies the stretch before each placeholder and substitutes it. */
  method FormatText(text: Text, args: Arguments, sprint: Json -> Text) returns (r: Report)
    ensures match Format(text, 0, args, sprint)
            case Formatted(out) => r == Value(String(out))
            case FormatFault(fault) => r == Error(fault)
  {
    var found := Placeholders(text, 0);
    var rendered: Text := [];
    var last: nat := 0;
    for k := 0 to |found|
      invariant last <= |text|
      invariant found[k..] == Placeholders(text, last)
      invariant Format(text, 0, args, sprint) == Prepend(rendered, Format(text, last, args, sprint))
    {
      var (start, end) := found[k];
      HeadOfDrop(found, k);
      FormatSkipsLiteral(text, last, start, end, args, sprint);
      FormatSubstitutes(text, start, end, args, sprint);
      PrependTwice(rendered, text[last..start], Format(text, start, args, sprint));
      rendered := rendered + text[last..start];
      var name := text[start + 1..end - 1];
      if name !in args {
        return Error(MissingFormatInput);
      }
      if !args[name].IsScalar() {
        return Error(FormatNotScalar);
      }
      PrependTwice(rendered, sprint(args[name]), Format(text, end, args, sprint));
      rendered := rendered + sprint(args[name]);
      last := end;
    }
    FormatOfLiteral(text, last, args, sprint);
    r := Value(String(rendered + text[last..]));
  }

  method RenderNode(t: Json, args: Arguments, sprint: Json -> Text, depth: nat) returns (r: Report)
    ensures Admits(Render(t, args, sprint, depth), r)
    decreases t, 1
  {
    if depth > MAX_DEPTH {
      return Error(TemplateTooDeep);
    }
    match t
    case Object(fields) =>
      if ARG in fields {
        if !fields[ARG].String? || TrimSpace(fields[ARG].text) == [] {
          return Error(BadArgument);
        }
        var name := fields[ARG].text;
        if name in args {
          r := CloneJson(args[name], depth + 1);
        } else if DEFAULT in fields {
          r := RenderNode(fields[DEFAULT], args, sprint, depth + 1);
        } else if OMIT in fields && fields[OMIT] == Bool(true) {
          r := Absent;
        } else {
          r := Error(MissingInput);
        }
      } else if FORMAT in fields {
        if !fields[FORMAT].String? {
          return Error(FormatNotText);
        }
        r := FormatText(fields[FORMAT].text, args, sprint);
      } else {
        r := RenderObject(t, args, sprint, depth + 1);
        if r.Error? {
          ghost var key :| key in fields && Reports(Render(fields[key], args, sprint, depth + 1), r.fault);
          PlainObjectFails(fields, key, r.fault, args, sprint, depth);
        } else {
          PlainObjectRenders(fields, args, sprint, depth);
        }
      }
    case Array(items) =>
      r := RenderArray(items, args, sprint, depth + 1);
    case _ =>
      r := Value(t);
  }

  lemma MoveKey(todo: set<Text>, done: set<Text>, key: Text)
    requires done !! todo && key in todo
    ensures done + {key} !! todo - {key} && (done + {key}) + (todo - {key}) == done + todo
    ensures |todo - {key}| < |todo|
  {
  }

  /** The loop over the fields of an object, in an arbitrary order. */
  method RenderObject(t: Json, args: Arguments, sprint: Json -> Text, depth: nat) returns (r: Report)
    requires t.Object?
    ensures !r.Absent?
    ensures r.Error? ==> exists k :: k in t.fields && Reports(Render(t.fields[k], args, sprint, depth), r.fault)
    ensures r.Value? ==>
              && (forall k :: k in t.fields ==> !Render(t.fields[k], args, sprint, depth).Failed?)
              && r.value == Object(RenderFields(t.fields, t.fields.Keys, args, sprint, depth))
    decreases t, 0
  {
    var result: map<Text, Json> := map[];
    var todo := t.fields.Keys;
    ghost var done: set<Text> := {};
    while todo != {}
      invariant done !! todo && done + todo == t.fields.Keys
      invariant forall k :: k in done ==> !Render(t.fields[k], args, sprint, depth).Failed?
      invariant result == RenderFields(t.fields, done, args, sprint, depth)
      decreases |todo|
    {
      var key :| key in todo;
      RenderOneMore(t.fields, done, key, args, sprint, depth);
      var child := RenderNode(t.fields[key], args, sprint, depth);
      if child.Error? {
        return child;
      }
      if child.Value? {
        result := result[key := child.value];
      }
      MoveKey(todo, done, key);
      todo := todo - {key};
      done := done + {key};
    }
    assert done == t.fields.Keys;
    r := Value(Object(result));
  }

  ghost function PrependItems(head: seq<Json>, rest: Outcome): Outcome {
    if rest.Rendered? && rest.value.Array? then Rendered(Array(head + rest.value.items)) else rest
  }

  lemma RenderItemsStep(items: seq<Json>, i: nat, head: seq<Json>, args: Arguments, sprint: Json -> Text, depth: nat)
    requires i < |items|
    ensures
      var child := Render(items[i], args, sprint, depth);
      PrependItems(head, RenderItems(items[i..], args, sprint, depth)) ==
      if child.Failed? then child
      else PrependItems(if child.Rendered? then head + [child.value] else head,
                        RenderItems(items[i + 1..], args, sprint, depth))
  {
    assert items[i..][0] == items[i] && items[i..][1..] == items[i + 1..];
    var child := Render(items[i], args, sprint, depth);
    var rest := RenderItems(items[i + 1..], args, sprint, depth);
    if child.Rendered? && rest.Rendered? {
      assert head + ([child.value] + rest.value.items) == head + [child.value] + rest.value.items;
    } else if rest.Rendered? {
      assert [] + rest.value.items == rest.value.items;
    }
  }

  method RenderArray(items: seq<Json>, args: Arguments, sprint: Json -> Text, depth: nat) returns (r: Report)
    ensures Admits(RenderItems(items, args, sprint, depth), r)
    decreases items, 0
  {
    var result: seq<Json> := [];
    assert items[0..] == items;
    for i := 0 to |items|
      invariant RenderItems(items, args, sprint, depth) ==
                PrependItems(result, RenderItems(items[i..], args, sprint, depth))
    {
      RenderItemsStep(items, i, result, args, sprint, depth);
      var child := RenderNode(items[i], args, sprint, depth);
      if child.Error? {
        return child;
      }
      if child.Value? {
        result := result + [child.value];
      }
    }
    r := Value(Array(result));
  }

  /** RenderTemplate: a body whose root is omitted is an error (None). */
  method RenderTemplate(t: Json, args: Arguments, sprint: Json -> Text) returns (r: Option<Report>)
    ensures r.None? <==> Render(t, args, sprint, 0).Omitted?
    ensures r.Some? ==> Admits(Render(t, args, sprint, 0), r.value)
  {
    var report := RenderNode(t, args, sprint, 0);
    r := if report.Absent? then None else Some(report);
  }
}
