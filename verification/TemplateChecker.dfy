/**
  What the load-time checker accepts, told node by node: a template is accepted
  iff every node that a path leads to is well-formed by itself and not too deep.
 */
module TemplateChecker {
  import opened GoText
  import opened Json
  import opened Inputs
  import opened Template
  import opened FormatStrings
  import opened TemplateHygiene
  import opened TemplateSoundness

  /** The part of a template that a path leads to, fallbacks of arguments included. */
  ghost function PartAt(t: Json, path: seq<Step>): Option<Json>
    decreases |path|
  {
    if path == [] then Some(t)
    else
      match path[0]
      case Field(k) => if t.Object? && IsPlain(t.fields) && k in t.fields then PartAt(t.fields[k], path[1..]) else None
      case Index(i) => if t.Array? && i < |t.items| then PartAt(t.items[i], path[1..]) else None
      case Fallback =>
        if t.Object? && ARG in t.fields && DEFAULT in t.fields then PartAt(t.fields[DEFAULT], path[1..]) else None
  }

  /** The input is declared, and the argument is there whenever a call is accepted. */
  predicate IsSure(name: Text, inputs: InputMap) {
    name in inputs && (inputs[name].required || inputs[name].default != Null)
  }

  /** An $arg: a declared input, that is sure to be there or may be absent. */
  predicate IsGoodArgument(fields: map<Text, Json>, inputs: InputMap)
    requires ARG in fields
  {
    && fields.Keys <= {ARG, DEFAULT, OMIT}
    && fields[ARG].String? && IsInputName(fields[ARG].text) && fields[ARG].text in inputs
    && (OMIT in fields ==> fields[OMIT].Bool?)
    && (IsSure(fields[ARG].text, inputs) || DEFAULT in fields || (OMIT in fields && fields[OMIT].flag))
  }

  /** A $format: alone, and with names in braces that are sure to be there. */
  ghost predicate IsGoodFormat(fields: map<Text, Json>, inputs: InputMap)
    requires FORMAT in fields
  {
    && fields.Keys == {FORMAT} && fields[FORMAT].String?
    && exists literals, names ::
         ArePieces(literals, names) && fields[FORMAT].text == Written(literals, names)
         && forall n :: n in names ==> IsSure(n, inputs)
  }

  ghost predicate IsGoodNode(t: Json, inputs: InputMap) {
    t.Object? ==>
      if ARG in t.fields then IsGoodArgument(t.fields, inputs)
      else FORMAT in t.fields ==> IsGoodFormat(t.fields, inputs)
  }

  /** Everything that a path leads to is good, and at most 64 levels deep. */
  ghost predicate IsGoodThroughout(t: Json, inputs: InputMap, depth: nat) {
    forall path :: PartAt(t, path).Some? ==> depth + |path| <= 64 && IsGoodNode(PartAt(t, path).value, inputs)
  }

  lemma GoodFormatIff(fields: map<Text, Json>, inputs: InputMap)
    requires FORMAT in fields
    ensures IsGoodFormat(fields, inputs) <==>
              && fields[FORMAT].String? && |fields| == 1
              && forall n :: n in FormatNames(fields[FORMAT].text, 0) ==> n in inputs && AlwaysPresent(inputs[n])
  {
    OnlyKey(fields, FORMAT);
    if fields[FORMAT].String? {
      var text := fields[FORMAT].text;
      assert text[0..] == text;
      var literals, names := EveryTextIsWritten(text, 0);
      NamesAreSeen(text, 0, literals, names);
      if IsGoodFormat(fields, inputs) {
        var others, sure :| ArePieces(others, sure) && text == Written(others, sure)
                            && forall n :: n in sure ==> IsSure(n, inputs);
        NamesAreSeen(text, 0, others, sure);
      }
    }
  }

  lemma OnlyKey(fields: map<Text, Json>, key: Text)
    requires key in fields
    ensures fields.Keys == {key} <==> |fields| == 1
  {
    assert |fields.Keys| == |fields|;
    if |fields| == 1 {
      assert fields.Keys - {key} == {} by {
        assert |fields.Keys - {key}| == 0;
      }
    }
  }

  lemma {:induction false} AcceptedIsGood(t: Json, inputs: InputMap, depth: nat, path: seq<Step>)
    requires Valid(t, inputs, depth) && PartAt(t, path).Some?
    ensures depth + |path| <= 64 && IsGoodNode(PartAt(t, path).value, inputs)
    decreases |path|
  {
    if path == [] {
      if t.Object? && FORMAT in t.fields {
        GoodFormatIff(t.fields, inputs);
      }
    } else {
      match path[0]
      case Field(k) => AcceptedIsGood(t.fields[k], inputs, depth + 1, path[1..]);
      case Index(i) => AcceptedIsGood(t.items[i], inputs, depth + 1, path[1..]);
      case Fallback => AcceptedIsGood(t.fields[DEFAULT], inputs, depth + 1, path[1..]);
    }
  }

  /** A part of a template that is good throughout is good throughout. */
  lemma PartIsGood(t: Json, inputs: InputMap, depth: nat, step: Step)
    requires IsGoodThroughout(t, inputs, depth) && PartAt(t, [step]).Some?
    ensures IsGoodThroughout(PartAt(t, [step]).value, inputs, depth + 1)
  {
    var part := PartAt(t, [step]).value;
    assert [step][1..] == [];
    forall path | PartAt(part, path).Some?
      ensures depth + 1 + |path| <= 64 && IsGoodNode(PartAt(part, path).value, inputs)
    {
      assert ([step] + path)[1..] == path;
      assert PartAt(t, [step] + path) == PartAt(part, path);
    }
  }

  lemma {:induction false} GoodIsAccepted(t: Json, inputs: InputMap, depth: nat)
    requires IsGoodThroughout(t, inputs, depth)
    ensures Valid(t, inputs, depth)
    decreases t
  {
    assert PartAt(t, []) == Some(t) && IsGoodNode(t, inputs);
    match t
    case Object(fields) =>
      if ARG in fields {
        if DEFAULT in fields {
          PartIsGood(t, inputs, depth, Fallback);
          GoodIsAccepted(fields[DEFAULT], inputs, depth + 1);
        }
      } else if FORMAT in fields {
        GoodFormatIff(fields, inputs);
      } else {
        forall k | k in fields
          ensures Valid(fields[k], inputs, depth + 1)
        {
          PartIsGood(t, inputs, depth, Field(k));
          GoodIsAccepted(fields[k], inputs, depth + 1);
        }
      }
    case Array(items) =>
      forall i | 0 <= i < |items|
        ensures Valid(items[i], inputs, depth + 1)
      {
        PartIsGood(t, inputs, depth, Index(i));
        GoodIsAccepted(items[i], inputs, depth + 1);
      }
    case _ =>
  }

  /** The checker is exact: it accepts iff every node is good where it is. */
  lemma AcceptedIff(t: Json, inputs: InputMap, depth: nat)
    ensures Valid(t, inputs, depth) <==> IsGoodThroughout(t, inputs, depth)
  {
    if Valid(t, inputs, depth) {
      forall path | PartAt(t, path).Some?
        ensures depth + |path| <= 64 && IsGoodNode(PartAt(t, path).value, inputs)
      {
        AcceptedIsGood(t, inputs, depth, path);
      }
    }
    if IsGoodThroughout(t, inputs, depth) {
      GoodIsAccepted(t, inputs, depth);
    }
  }
}
