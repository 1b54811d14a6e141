/** Tool input schemas and sensitivity metadata
    (core/spakky-agent/src/spakky/agent/tooling.py,
    core/spakky-agent/src/spakky/agent/safety.py). */
module ToolSchemas {
  import opened Wrappers
  import opened Schema
  import opened SchemaProperties

  // ----- Input schemas -----

  datatype ParameterKind = Ordinary | PositionalOnly | Variadic

  datatype Parameter = Parameter(name: string, kind: ParameterKind, annotation: Option<Annotation>, hasDefault: bool)

  predicate Receiver(p: Parameter) {
    p.name == "self" || p.name == "cls"
  }

  predicate Admissible(p: Parameter) {
    p.kind.Ordinary? && p.annotation.Some?
  }

  /** The parameters a caller fills in, as fields of the arguments object. */
  function ArgumentFields(parameters: seq<Parameter>): Option<seq<Field>>
    decreases |parameters|
  {
    if parameters == [] then Some([])
    else
      var n := |parameters| - 1;
      var rest := ArgumentFields(parameters[..n]);
      var p := parameters[n];
      if rest.None? then None
      else if Receiver(p) then rest
      else if !Admissible(p) then None
      else Some(rest.value + [Field(p.name, p.annotation.value, !p.hasDefault)])
  }

  function WithTitle(title: string, x: Extraction): Extraction {
    x.(schema := map["title" := JString(title)] + x.schema)
  }

  function InputSchema(parameters: seq<Parameter>, title: string): Option<Extraction> {
    var fields := ArgumentFields(parameters);
    if fields.None? then None
    else
      var x := CompileFields(fields.value, []);
      if x.None? then None else Some(WithTitle(title, ObjectWith(x.value)))
  }

  /** A title says nothing about values. */
  lemma {:induction false} TitleIsIgnored(title: string, x: Extraction, v: Json)
    requires "title" !in x.schema
    ensures Accepts(JObject(WithTitle(title, x).schema), v) <==> Accepts(JObject(x.schema), v)
  {
    var m, m1 := x.schema, WithTitle(title, x).schema;
    assert forall key :: key != "title" ==> (key in m <==> key in m1) && (key in m ==> m[key] == m1[key]);
    assert forall key :: Listed(m, key) <==> Listed(m1, key);
    assert PrefixLength(m) == PrefixLength(m1);
    if v.JArray? { assert AcceptsArray(JObject(m), v.items) <==> AcceptsArray(JObject(m1), v.items); }
    if v.JObject? { assert AcceptsObject(JObject(m), v.fields) <==> AcceptsObject(JObject(m1), v.fields); }
  }

  lemma {:induction false} ArgumentFieldAt(parameters: seq<Parameter>, i: nat) returns (j: nat)
    requires ArgumentFields(parameters).Some? && i < |ArgumentFields(parameters).value|
    ensures j < |parameters| && !Receiver(parameters[j]) && Admissible(parameters[j])
    ensures ArgumentFields(parameters).value[i]
         == Field(parameters[j].name, parameters[j].annotation.value, !parameters[j].hasDefault)
    decreases |parameters|
  {
    var n := |parameters| - 1;
    var rest := ArgumentFields(parameters[..n]).value;
    if i < |rest| {
      j := ArgumentFieldAt(parameters[..n], i);
    } else {
      j := n;
    }
  }

  lemma {:induction false} ArgumentNamesDistinct(parameters: seq<Parameter>)
    requires ArgumentFields(parameters).Some?
    requires forall i, j :: 0 <= i < j < |parameters| ==> parameters[i].name != parameters[j].name
    ensures Distinct(ArgumentFields(parameters).value)
    decreases |parameters|
  {
    if parameters != [] {
      var n := |parameters| - 1;
      ArgumentNamesDistinct(parameters[..n]);
      var rest := ArgumentFields(parameters[..n]).value;
      forall i | 0 <= i < |rest|
        ensures rest[i].name != parameters[n].name
      {
        var j := ArgumentFieldAt(parameters[..n], i);
      }
    }
  }

  lemma {:induction false} ArgumentFieldFor(parameters: seq<Parameter>, j: nat) returns (i: nat)
    requires ArgumentFields(parameters).Some? && j < |parameters| && !Receiver(parameters[j])
    ensures Admissible(parameters[j]) && i < |ArgumentFields(parameters).value|
    ensures ArgumentFields(parameters).value[i]
         == Field(parameters[j].name, parameters[j].annotation.value, !parameters[j].hasDefault)
    decreases |parameters|
  {
    var n := |parameters| - 1;
    if j < n {
      i := ArgumentFieldFor(parameters[..n], j);
    } else {
      i := |ArgumentFields(parameters).value| - 1;
    }
  }

  /** The arguments object `v` fits the parameters: it names nothing but
      parameters other than the receiver, gives every one without a default, and
      each value it gives is of the type of its parameter. */
  ghost predicate FitsParameters(parameters: seq<Parameter>, v: Json) {
    && v.JObject?
    && (forall key :: key in v.fields ==> NamesParameter(parameters, key))
    && (forall j :: 0 <= j < |parameters| && !Receiver(parameters[j]) && !parameters[j].hasDefault ==>
          parameters[j].name in v.fields)
    && (forall j :: 0 <= j < |parameters| && !Receiver(parameters[j]) && parameters[j].name in v.fields ==>
          && parameters[j].annotation.Some?
          && Member(parameters[j].annotation.value, v.fields[parameters[j].name]))
  }

  predicate NamesParameter(parameters: seq<Parameter>, key: string) {
    exists j :: 0 <= j < |parameters| && !Receiver(parameters[j]) && parameters[j].name == key
  }

  lemma {:induction false} ArgumentsMean(parameters: seq<Parameter>, v: Json)
    requires ArgumentFields(parameters).Some?
    ensures Member(Dataclass(ArgumentFields(parameters).value), v) <==> FitsParameters(parameters, v)
  {
    var fields := ArgumentFields(parameters).value;
    if FitsParameters(parameters, v) {
      FittingIsMember(parameters, v);
    }
    if Member(Dataclass(fields), v) {
      MemberIsFitting(parameters, v);
    }
  }

  lemma {:induction false} FittingIsMember(parameters: seq<Parameter>, v: Json)
    requires ArgumentFields(parameters).Some? && FitsParameters(parameters, v)
    ensures Member(Dataclass(ArgumentFields(parameters).value), v)
  {
    var fields := ArgumentFields(parameters).value;
    forall key | key in v.fields
      ensures exists i :: 0 <= i < |fields| && fields[i].name == key
    {
      var j :| 0 <= j < |parameters| && !Receiver(parameters[j]) && parameters[j].name == key;
      var i := ArgumentFieldFor(parameters, j);
    }
    forall i | 0 <= i < |fields|
      ensures fields[i].required ==> fields[i].name in v.fields
      ensures fields[i].name in v.fields ==> Member(fields[i].annotation, v.fields[fields[i].name])
    {
      var j := ArgumentFieldAt(parameters, i);
    }
  }

  lemma {:induction false} MemberIsFitting(parameters: seq<Parameter>, v: Json)
    requires ArgumentFields(parameters).Some? && Member(Dataclass(ArgumentFields(parameters).value), v)
    ensures FitsParameters(parameters, v)
  {
    var fields := ArgumentFields(parameters).value;
    forall key | key in v.fields
      ensures NamesParameter(parameters, key)
    {
      var i :| 0 <= i < |fields| && fields[i].name == key;
      var j := ArgumentFieldAt(parameters, i);
    }
    forall j | 0 <= j < |parameters| && !Receiver(parameters[j])
      ensures !parameters[j].hasDefault ==> parameters[j].name in v.fields
      ensures parameters[j].name in v.fields ==>
                && parameters[j].annotation.Some?
                && Member(parameters[j].annotation.value, v.fields[parameters[j].name])
    {
      var i := ArgumentFieldFor(parameters, j);
    }
  }

  /** The input schema accepts an arguments object exactly when it fits the
      parameters, and it carries the title. */
  lemma {:induction false} InputSchemaIsExact(parameters: seq<Parameter>, title: string, v: Json)
    requires InputSchema(parameters, title).Some?
    requires forall i, j :: 0 <= i < j < |parameters| ==> parameters[i].name != parameters[j].name
    requires forall i :: 0 <= i < |parameters| && parameters[i].annotation.Some? ==>
        Named(parameters[i].annotation.value)
    ensures Accepts(JObject(InputSchema(parameters, title).value.schema), v) <==> FitsParameters(parameters, v)
    ensures var schema := InputSchema(parameters, title).value.schema;
            "title" in schema && schema["title"] == JString(title)
  {
    var fields := ArgumentFields(parameters).value;
    ArgumentNamesDistinct(parameters);
    forall i | 0 <= i < |fields|
      ensures Named(fields[i].annotation)
    {
      var j := ArgumentFieldAt(parameters, i);
    }
    DataclassIsExact(fields, [], v);
    TitleIsIgnored(title, ObjectWith(CompileFields(fields, []).value), v);
    ArgumentsMean(parameters, v);
  }

  /** There is an input schema if and only if every parameter but the receiver is
      an ordinary one with a supported annotation. */
  lemma {:induction false} InputSchemaExistsIff(parameters: seq<Parameter>, title: string)
    ensures InputSchema(parameters, title).Some?
       <==> forall j :: 0 <= j < |parameters| && !Receiver(parameters[j]) ==>
              Admissible(parameters[j]) && Supported(parameters[j].annotation.value)
  {
    FieldsExistIff(parameters);
    if ArgumentFields(parameters).Some? {
      var fields := ArgumentFields(parameters).value;
      FieldsCompileIffSupported(fields, []);
      forall i | 0 <= i < |fields|
        ensures exists j :: 0 <= j < |parameters| && !Receiver(parameters[j])
                            && parameters[j].annotation == Some(fields[i].annotation)
      {
        var j := ArgumentFieldAt(parameters, i);
      }
      forall j | 0 <= j < |parameters| && !Receiver(parameters[j])
        ensures Admissible(parameters[j])
        ensures exists i :: 0 <= i < |fields| && fields[i].annotation == parameters[j].annotation.value
      {
        var i := ArgumentFieldFor(parameters, j);
      }
    }
  }

  lemma {:induction false} FieldsExistIff(parameters: seq<Parameter>)
    ensures ArgumentFields(parameters).Some?
       <==> forall j :: 0 <= j < |parameters| && !Receiver(parameters[j]) ==> Admissible(parameters[j])
    decreases |parameters|
  {
    if parameters != [] {
      var n := |parameters| - 1;
      FieldsExistIff(parameters[..n]);
      assert forall j :: 0 <= j < n ==> parameters[..n][j] == parameters[j];
    }
  }

  // ----- The loops of the source -----

  /** `_enum_schema`. */
  method BuildEnumSchema(members: seq<Constant>) returns (schema: Option<map<string, Json>>)
    ensures schema == EnumSchema(members)
  {
    var values: seq<Json> := [];
    var types: set<string> := {};
    var i := 0;
    while i < |members|
      invariant 0 <= i <= |members|
      invariant Encoded(members[..i]) == Some(values)
      invariant types == EnumTypes(members[..i])
    {
      assert members[..i + 1][..i] == members[..i];
      if members[i].Other? {
        EncodedIffConstant(members);
        return None;
      }
      EnumTypesLast(members, i);
      values := values + [Encode(members[i])];
      types := types + {ConstantType(members[i]).value};
      i := i + 1;
    }
    assert members[..i] == members;
    if |types| == 1 {
      SingleType(types);
      var name :| name in types && types == {name};
      schema := Some(map["enum" := JArray(values)]["type" := JString(name)]);
    } else {
      assert forall name :: name in types && types == {name} ==> |types| == 1;
      schema := Some(map["enum" := JArray(values)]);
    }
  }

  lemma {:induction false} SingleType(types: set<string>)
    requires |types| == 1
    ensures exists name :: name in types && types == {name}
  {
    var name :| name in types;
    assert |types - {name}| == 0;
    assert types == {name};
  }

  lemma {:induction false} EnumTypesLast(members: seq<Constant>, i: nat)
    requires i < |members| && !members[i].Other?
    ensures EnumTypes(members[..i + 1]) == EnumTypes(members[..i]) + {ConstantType(members[i]).value}
  {
    var before, after := members[..i], members[..i + 1];
    assert after == before + [members[i]];
    forall name | name in EnumTypes(before)
      ensures name in EnumTypes(after)
    {
      var k :| 0 <= k < i && !before[k].Other? && ConstantType(before[k]).value == name;
      assert after[k] == before[k];
    }
    assert after[i] == members[i];
    forall name | name in EnumTypes(after)
      ensures name in EnumTypes(before) || name == ConstantType(members[i]).value
    {
      var k :| 0 <= k <= i && !after[k].Other? && ConstantType(after[k]).value == name;
      if k < i { assert before[k] == after[k]; }
    }
  }

  lemma {:induction false} FieldsStayFailed(fields: seq<Field>, i: nat, path: seq<string>)
    requires i <= |fields| && CompileFields(fields[..i], path).None?
    ensures CompileFields(fields, path).None?
    decreases |fields| - i
  {
    if i == |fields| {
      assert fields[..i] == fields;
    } else {
      assert fields[..i + 1][..i] == fields[..i];
      FieldsStayFailed(fields, i + 1, path);
    }
  }

  /** `_dataclass_schema`. */
  method BuildDataclassSchema(fields: seq<Field>, path: seq<string>) returns (x: Option<Extraction>)
    ensures x == CompileBare(Dataclass(fields), path)
  {
    var p := Properties(map[], [], []);
    var i := 0;
    while i < |fields|
      invariant 0 <= i <= |fields|
      invariant CompileFields(fields[..i], path) == Some(p)
    {
      assert fields[..i + 1][..i] == fields[..i];
      var extracted := Compile(fields[i].annotation, path + [fields[i].name]);
      if extracted.None? {
        FieldsStayFailed(fields, i + 1, path);
        return None;
      }
      p := AddField(p, fields[i], extracted.value);
      i := i + 1;
    }
    assert fields[..i] == fields;
    x := Some(ObjectWith(p));
  }

  /** What the loop of `_build_input_schema` has gathered from some parameters. */
  function Gathered(parameters: seq<Parameter>): Option<Properties> {
    var fields := ArgumentFields(parameters);
    if fields.None? then None else CompileFields(fields.value, [])
  }

  lemma {:induction false} GatheredLast(parameters: seq<Parameter>, i: nat)
    requires i < |parameters|
    ensures var before, p := Gathered(parameters[..i]), parameters[i];
            Gathered(parameters[..i + 1]) ==
              if before.None? then None
              else if Receiver(p) then before
              else if !Admissible(p) then None
              else
                var x := Compile(p.annotation.value, [p.name]);
                if x.None? then None
                else Some(AddField(before.value, Field(p.name, p.annotation.value, !p.hasDefault), x.value))
  {
    assert parameters[..i + 1][..i] == parameters[..i];
    var rest := ArgumentFields(parameters[..i]);
    var p := parameters[i];
    if rest.Some? && Admissible(p) && !Receiver(p) {
      var f := Field(p.name, p.annotation.value, !p.hasDefault);
      assert (rest.value + [f])[..|rest.value|] == rest.value;
      assert [] + [p.name] == [p.name];
    }
  }

  lemma {:induction false} GatheredStaysFailed(parameters: seq<Parameter>, i: nat)
    requires i <= |parameters| && Gathered(parameters[..i]).None?
    ensures Gathered(parameters).None?
    decreases |parameters| - i
  {
    if i == |parameters| {
      assert parameters[..i] == parameters;
    } else {
      GatheredLast(parameters, i);
      GatheredStaysFailed(parameters, i + 1);
    }
  }

  /** `_build_input_schema`. */
  method BuildInputSchema(parameters: seq<Parameter>, title: string) returns (x: Option<Extraction>)
    ensures x == InputSchema(parameters, title)
  {
    var p := Properties(map[], [], []);
    var i := 0;
    while i < |parameters|
      invariant 0 <= i <= |parameters|
      invariant Gathered(parameters[..i]) == Some(p)
    {
      var parameter := parameters[i];
      GatheredLast(parameters, i);
      if !Receiver(parameter) {
        var extracted := if Admissible(parameter) then Compile(parameter.annotation.value, [parameter.name]) else None;
        if extracted.None? {
          GatheredStaysFailed(parameters, i + 1);
          return None;
        }
        p := AddField(p, Field(parameter.name, parameter.annotation.value, !parameter.hasDefault), extracted.value);
      }
      i := i + 1;
    }
    assert parameters[..i] == parameters;
    x := Some(WithTitle(title, ObjectWith(p)));
  }

  // ----- Sensitivity metadata -----

  const SENSITIVE := "x-spakky-sensitive"

  /** Where a path of property names leads inside a schema, if anywhere. */
  predicate Resolves(schema: map<string, Json>, path: seq<string>)
    decreases |path|
  {
    path == [] || (Listed(schema, path[0]) && schema["properties"].fields[path[0]].JObject?
                   && Resolves(schema["properties"].fields[path[0]].fields, path[1..]))
  }

  function Target(schema: map<string, Json>, path: seq<string>): map<string, Json>
    requires Resolves(schema, path)
    decreases |path|
  {
    if path == [] then schema else Target(schema["properties"].fields[path[0]].fields, path[1..])
  }

  function Marks(schema: map<string, Json>): seq<Json> {
    if SENSITIVE in schema && schema[SENSITIVE].JArray? then schema[SENSITIVE].items else []
  }

  function Attach(schema: map<string, Json>, path: seq<string>, mark: Json): map<string, Json>
    decreases |path|
  {
    if path == [] then schema[SENSITIVE := JArray(Marks(schema) + [mark])]
    else if !Listed(schema, path[0]) || !schema["properties"].fields[path[0]].JObject? then schema
    else
      var properties := schema["properties"].fields;
      var inner := Attach(properties[path[0]].fields, path[1..], mark);
      schema["properties" := JObject(properties[path[0] := JObject(inner)])]
  }

  function AttachAll(schema: map<string, Json>, sensitive: seq<Descriptor>): map<string, Json>
    decreases |sensitive|
  {
    if sensitive == [] then schema
    else
      var n := |sensitive| - 1;
      Attach(AttachAll(schema, sensitive[..n]), sensitive[n].path, sensitive[n].mark)
  }

  lemma {:induction false} SameKeywords(m: map<string, Json>, m1: map<string, Json>, v: Json)
    requires forall key :: key != SENSITIVE && key != "properties" ==>
        (key in m <==> key in m1) && (key in m ==> m[key] == m1[key])
    requires "properties" in m <==> "properties" in m1
    requires "properties" in m ==> (m["properties"].JObject? <==> m1["properties"].JObject?)
    requires forall key :: Listed(m, key) <==> Listed(m1, key)
    requires forall key, u :: Listed(m, key) && Listed(m1, key) ==>
               (Accepts(m["properties"].fields[key], u) <==> Accepts(m1["properties"].fields[key], u))
    ensures Accepts(JObject(m), v) <==> Accepts(JObject(m1), v)
  {
    assert PrefixLength(m) == PrefixLength(m1);
    if v.JArray? { assert AcceptsArray(JObject(m), v.items) <==> AcceptsArray(JObject(m1), v.items); }
    if v.JObject? { assert AcceptsObject(JObject(m), v.fields) <==> AcceptsObject(JObject(m1), v.fields); }
  }

  lemma {:induction false} AttachAccepts(schema: map<string, Json>, path: seq<string>, mark: Json, v: Json)
    ensures Accepts(JObject(Attach(schema, path, mark)), v) <==> Accepts(JObject(schema), v)
    decreases |path|
  {
    var m1 := Attach(schema, path, mark);
    if path != [] && Listed(schema, path[0]) && schema["properties"].fields[path[0]].JObject? {
      var properties := schema["properties"].fields;
      var inner := properties[path[0]].fields;
      forall u
        ensures Accepts(JObject(Attach(inner, path[1..], mark)), u) <==> Accepts(properties[path[0]], u)
      {
        AttachAccepts(inner, path[1..], mark, u);
        assert JObject(inner) == properties[path[0]];
      }
    }
    SameKeywords(schema, m1, v);
  }

  /** Sensitivity metadata never changes which values a schema accepts. */
  lemma {:induction false} MetadataKeepsAcceptance(schema: map<string, Json>, sensitive: seq<Descriptor>, v: Json)
    ensures Accepts(JObject(AttachAll(schema, sensitive)), v) <==> Accepts(JObject(schema), v)
    decreases |sensitive|
  {
    if sensitive != [] {
      var n := |sensitive| - 1;
      MetadataKeepsAcceptance(schema, sensitive[..n], v);
      AttachAccepts(AttachAll(schema, sensitive[..n]), sensitive[n].path, sensitive[n].mark, v);
    }
  }

  /** The mark lands at the end of its path's marks if the path resolves; if it
      does not, nothing changes. */
  lemma {:induction false} MarkLandsAtPath(schema: map<string, Json>, path: seq<string>, mark: Json)
    ensures !Resolves(schema, path) ==> Attach(schema, path, mark) == schema
    ensures Resolves(schema, path) ==>
              && Resolves(Attach(schema, path, mark), path)
              && Marks(Target(Attach(schema, path, mark), path)) == Marks(Target(schema, path)) + [mark]
    decreases |path|
  {
    if path != [] && Listed(schema, path[0]) && schema["properties"].fields[path[0]].JObject? {
      MarkLandsAtPath(schema["properties"].fields[path[0]].fields, path[1..], mark);
      var properties := schema["properties"].fields;
      if !Resolves(properties[path[0]].fields, path[1..]) {
        assert properties[path[0] := JObject(properties[path[0]].fields)] == properties;
        assert schema["properties" := JObject(properties)] == schema;
      }
    }
  }

  /** A mark is seen at its own path and nowhere else. */
  lemma {:induction false} MarksAfterAttach(schema: map<string, Json>, path: seq<string>, mark: Json, at: seq<string>)
    requires Resolves(schema, at)
    ensures Resolves(Attach(schema, path, mark), at)
    ensures Marks(Target(Attach(schema, path, mark), at))
         == Marks(Target(schema, at)) + (if at == path then [mark] else [])
    decreases |path|
  {
    if path != [] && Listed(schema, path[0]) && schema["properties"].fields[path[0]].JObject? {
      if at != [] && at[0] == path[0] {
        MarksAfterAttach(schema["properties"].fields[path[0]].fields, path[1..], mark, at[1..]);
        assert at == path <==> at[1..] == path[1..] by {
          assert at == [at[0]] + at[1..] && path == [path[0]] + path[1..];
        }
      }
    }
  }

  /** The marks that descriptors put at one path, in order. */
  function MarksFor(sensitive: seq<Descriptor>, at: seq<string>): seq<Json>
    decreases |sensitive|
  {
    if sensitive == [] then []
    else
      var n := |sensitive| - 1;
      MarksFor(sensitive[..n], at) + (if sensitive[n].path == at then [sensitive[n].mark] else [])
  }

  /** After all descriptors are attached, every path that resolves holds the
      marks it had followed by all that were meant for it, in order. */
  lemma {:induction false} EveryMarkStays(schema: map<string, Json>, sensitive: seq<Descriptor>, at: seq<string>)
    requires Resolves(schema, at)
    ensures Resolves(AttachAll(schema, sensitive), at)
    ensures Marks(Target(AttachAll(schema, sensitive), at)) == Marks(Target(schema, at)) + MarksFor(sensitive, at)
    decreases |sensitive|
  {
    if sensitive != [] {
      var n := |sensitive| - 1;
      EveryMarkStays(schema, sensitive[..n], at);
      MarksAfterAttach(AttachAll(schema, sensitive[..n]), sensitive[n].path, sensitive[n].mark, at);
      var last := if at == sensitive[n].path then [sensitive[n].mark] else [];
      assert Marks(Target(schema, at)) + MarksFor(sensitive[..n], at) + last
          == Marks(Target(schema, at)) + (MarksFor(sensitive[..n], at) + last);
    }
  }
}
