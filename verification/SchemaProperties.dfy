/** A compiled schema accepts exactly the JSON encodings of the annotated type,
    compilation succeeds on exactly the supported annotations, and attaching
    sensitivity metadata changes neither. */
module SchemaProperties {
  import opened Wrappers
  import opened Schema

  // ----- Supported annotations -----

  /** Python's own guarantee: the fields of a dataclass have distinct names. */
  predicate Named(t: Annotation) {
    match t
    case Union(args) => forall i :: 0 <= i < |args| ==> Named(args[i])
    case List(item) => Named(item)
    case VarTuple(item) => Named(item)
    case Tuple(args) => forall i :: 0 <= i < |args| ==> Named(args[i])
    case Mapping(_, value) => Named(value)
    case Dataclass(fields) =>
      && Distinct(fields)
      && forall i :: 0 <= i < |fields| ==> Named(fields[i].annotation)
    case Annotated(inner, _) => Named(inner)
    case _ => true
  }

  predicate Distinct(fields: seq<Field>) {
    forall i, j :: 0 <= i < j < |fields| ==> fields[i].name != fields[j].name
  }

  /** No `Any`, no unknown type, string keys only, JSON constants only. */
  predicate Supported(t: Annotation)
    decreases t, 1
  {
    if t.Annotated? then SupportedBare(t.inner) else SupportedBare(t)
  }

  predicate SupportedBare(t: Annotation)
    decreases t, 0
  {
    match t
    case Primitive(_) => true
    case Union(args) => forall i :: 0 <= i < |args| ==> Supported(args[i])
    case List(item) => Supported(item)
    case VarTuple(item) => Supported(item)
    case Tuple(args) => forall i :: 0 <= i < |args| ==> Supported(args[i])
    case Mapping(key, value) => key == Primitive(Str) && Supported(value)
    case Enum(members) => Other !in members
    case Dataclass(fields) => forall i :: 0 <= i < |fields| ==> Supported(fields[i].annotation)
    case AnyType => false
    case Annotated(_, _) => false
    case Unsupported => false
  }

  lemma {:induction false} EncodedIffConstant(members: seq<Constant>)
    ensures Encoded(members).Some? <==> Other !in members
    ensures Encoded(members).Some? ==>
              && |Encoded(members).value| == |members|
              && (forall i :: 0 <= i < |members| ==> !members[i].Other?)
              && (forall i :: 0 <= i < |members| ==> Encoded(members).value[i] == Encode(members[i]))
    decreases |members|
  {
    if members != [] {
      var n := |members| - 1;
      EncodedIffConstant(members[..n]);
      assert members == members[..n] + [members[n]];
    }
  }

  /** Compilation fails on exactly the annotations that are not supported. */
  lemma {:induction false} CompilesIffSupported(t: Annotation, path: seq<string>)
    ensures Compile(t, path).Some? <==> Supported(t)
    decreases t, 1
  {
    BareCompilesIffSupported(if t.Annotated? then t.inner else t, path);
  }

  lemma {:induction false} BareCompilesIffSupported(t: Annotation, path: seq<string>)
    ensures CompileBare(t, path).Some? <==> SupportedBare(t)
    decreases t, 0
  {
    match t
    case Union(args) => AllCompileIffSupported(args, path);
    case List(item) => CompilesIffSupported(item, path);
    case VarTuple(item) => CompilesIffSupported(item, path);
    case Tuple(args) => AllCompileIffSupported(args, path);
    case Mapping(_, value) => CompilesIffSupported(value, path);
    case Enum(members) => EncodedIffConstant(members);
    case Dataclass(fields) => FieldsCompileIffSupported(fields, path);
    case _ =>
  }

  lemma {:induction false} AllCompileIffSupported(args: seq<Annotation>, path: seq<string>)
    ensures CompileAll(args, path).Some? <==> forall i :: 0 <= i < |args| ==> Supported(args[i])
    decreases args
  {
    if args != [] {
      var n := |args| - 1;
      AllCompileIffSupported(args[..n], path);
      CompilesIffSupported(args[n], path);
      assert forall i :: 0 <= i < n ==> args[..n][i] == args[i];
    }
  }

  lemma {:induction false} FieldsCompileIffSupported(fields: seq<Field>, path: seq<string>)
    ensures CompileFields(fields, path).Some? <==> forall i :: 0 <= i < |fields| ==> Supported(fields[i].annotation)
    decreases fields
  {
    if fields != [] {
      var n := |fields| - 1;
      FieldsCompileIffSupported(fields[..n], path);
      CompilesIffSupported(fields[n].annotation, path + [fields[n].name]);
      assert forall i :: 0 <= i < n ==> fields[..n][i] == fields[i];
    }
  }

  // ----- Parts of compiled schemas -----

  lemma {:induction false} AllAt(args: seq<Annotation>, path: seq<string>)
    requires CompileAll(args, path).Some?
    ensures var all := CompileAll(args, path).value.schemas;
            && |all| == |args|
            && (forall i :: 0 <= i < |args| ==> Compile(args[i], path).Some?)
            && (forall i :: 0 <= i < |args| ==> all[i] == JObject(Compile(args[i], path).value.schema))
    decreases args
  {
    if args != [] {
      var n := |args| - 1;
      AllAt(args[..n], path);
      assert forall i :: 0 <= i < n ==> args[..n][i] == args[i];
    }
  }

  /** Property `i` of the compiled fields is the schema of field `i`. */
  predicate FieldAt(properties: map<string, Json>, f: Field, path: seq<string>) {
    && f.name in properties
    && Compile(f.annotation, path + [f.name]).Some?
    && properties[f.name] == JObject(Compile(f.annotation, path + [f.name]).value.schema)
  }

  lemma {:induction false} FieldsAt(fields: seq<Field>, path: seq<string>)
    requires CompileFields(fields, path).Some? && Distinct(fields)
    ensures forall i :: 0 <= i < |fields| ==> FieldAt(CompileFields(fields, path).value.properties, fields[i], path)
    decreases fields
  {
    if fields != [] {
      var n := |fields| - 1;
      FieldsAt(fields[..n], path);
      assert forall i :: 0 <= i < n ==> fields[..n][i] == fields[i];
    }
  }

  predicate HasField(fields: seq<Field>, name: string) {
    exists i :: 0 <= i < |fields| && fields[i].name == name
  }

  predicate HasRequired(fields: seq<Field>, name: string) {
    exists i :: 0 <= i < |fields| && fields[i].name == name && fields[i].required
  }

  lemma {:induction false} LastField(fields: seq<Field>, name: string)
    requires fields != []
    ensures var n := |fields| - 1;
            && (HasField(fields, name) <==> HasField(fields[..n], name) || fields[n].name == name)
            && (HasRequired(fields, name)
                <==> HasRequired(fields[..n], name) || (fields[n].name == name && fields[n].required))
  {
    var n := |fields| - 1;
    if HasField(fields[..n], name) {
      var i :| 0 <= i < n && fields[..n][i].name == name;
      assert fields[i].name == name;
    }
    if HasRequired(fields[..n], name) {
      var i :| 0 <= i < n && fields[..n][i].name == name && fields[..n][i].required;
      assert fields[i].name == name && fields[i].required;
    }
    if i :| 0 <= i < n && fields[i].name == name {
      assert fields[..n][i].name == name;
    }
    if i :| 0 <= i < n && fields[i].name == name && fields[i].required {
      assert fields[..n][i].name == name && fields[..n][i].required;
    }
  }

  lemma {:induction false} FieldNames(fields: seq<Field>, path: seq<string>, name: string)
    requires CompileFields(fields, path).Some?
    ensures var p := CompileFields(fields, path).value;
            && (name in p.properties <==> HasField(fields, name))
            && (JString(name) in p.required <==> HasRequired(fields, name))
    decreases fields
  {
    if fields != [] {
      FieldNames(fields[..|fields| - 1], path, name);
      LastField(fields, name);
    }
  }

  lemma {:induction false} RequiredAreStrings(fields: seq<Field>, path: seq<string>)
    requires CompileFields(fields, path).Some?
    ensures forall x :: x in CompileFields(fields, path).value.required ==> x.JString?
    decreases fields
  {
    if fields != [] {
      RequiredAreStrings(fields[..|fields| - 1], path);
    }
  }

  // ----- Exactness, kind by kind -----

  lemma {:induction false} PrimitiveExact(p: Primitive, v: Json)
    ensures Accepts(JObject(Typed(TypeName(p))), v) <==> Member(Primitive(p), v)
  {
    if p == Int && v.JNumber? {
      if v.n == v.n.Floor as real {
        assert v == Encode(OfInt(v.n.Floor));
      }
    }
  }

  lemma {:induction false} ConstantHasType(c: Constant)
    requires !c.Other?
    ensures HasType(JString(ConstantType(c).value), Encode(c))
  {
  }

  lemma {:induction false} EnumExact(members: seq<Constant>, v: Json)
    requires EnumSchema(members).Some?
    ensures Accepts(JObject(EnumSchema(members).value), v) <==> Member(Enum(members), v)
  {
    EncodedIffConstant(members);
    var values := Encoded(members).value;
    var schema := EnumSchema(members).value;
    assert v in values <==> Member(Enum(members), v) by {
      if v in values {
        var i :| 0 <= i < |values| && values[i] == v;
        assert v == Encode(members[i]);
      }
    }
    if v in values && "type" in schema {
      var i :| 0 <= i < |values| && values[i] == v;
      assert ConstantType(members[i]).value in EnumTypes(members);
      assert schema["type"] == JString(ConstantType(members[i]).value);
      ConstantHasType(members[i]);
    }
  }

  /** On `v`, schema and annotation say the same. */
  ghost predicate AgreeOn(schema: Json, t: Annotation, v: Json) {
    Accepts(schema, v) <==> Member(t, v)
  }

  lemma {:induction false} ArrayExact(x: Extraction, item: Annotation, v: Json)
    requires v.JArray? ==> forall i :: 0 <= i < |v.items| ==> AgreeOn(JObject(x.schema), item, v.items[i])
    ensures Accepts(JObject(ArrayOf(x).schema), v) <==> Member(List(item), v)
    ensures Accepts(JObject(ArrayOf(x).schema), v) <==> Member(VarTuple(item), v)
  {
    ArrayMeans(x, v);
    if v.JArray? {
      assert forall i :: 0 <= i < |v.items| ==> AgreeOn(JObject(x.schema), item, v.items[i]);
    }
  }

  lemma {:induction false} ArrayMeans(x: Extraction, v: Json)
    ensures Accepts(JObject(ArrayOf(x).schema), v)
       <==> v.JArray? && forall i :: 0 <= i < |v.items| ==> Accepts(JObject(x.schema), v.items[i])
  {
    var m := ArrayOf(x).schema;
    assert m["items"] == JObject(x.schema) && PrefixLength(m) == 0;
    if v.JArray? {
      assert AcceptsArray(JObject(m), v.items)
        <==> forall i :: 0 <= i < |v.items| ==> Accepts(JObject(x.schema), v.items[i]);
    }
  }

  lemma {:induction false} TupleExact(all: Several, args: seq<Annotation>, v: Json)
    requires |all.schemas| == |args|
    requires v.JArray? ==> forall i :: 0 <= i < |v.items| && i < |args| ==> AgreeOn(all.schemas[i], args[i], v.items[i])
    ensures Accepts(JObject(FixedArray(all).schema), v) <==> Member(Tuple(args), v)
  {
    var m := FixedArray(all).schema;
    assert m["prefixItems"] == JArray(all.schemas) && PrefixLength(m) == |args|;
    if v.JArray? {
      assert AcceptsArray(JObject(m), v.items) <==>
               |v.items| == |args| && forall i :: 0 <= i < |args| ==> Accepts(all.schemas[i], v.items[i]);
      assert forall i :: 0 <= i < |v.items| && i < |args| ==> AgreeOn(all.schemas[i], args[i], v.items[i]);
    }
  }

  lemma {:induction false} UnionExact(all: Several, args: seq<Annotation>, v: Json)
    requires |all.schemas| == |args|
    requires forall i :: 0 <= i < |args| ==> AgreeOn(all.schemas[i], args[i], v)
    ensures Accepts(JObject(map["anyOf" := JArray(all.schemas)]), v) <==> Member(Union(args), v)
  {
    var m := map["anyOf" := JArray(all.schemas)];
    assert m["anyOf"].items == all.schemas;
    if i :| 0 <= i < |args| && Accepts(all.schemas[i], v) {
      assert AgreeOn(all.schemas[i], args[i], v);
    }
  }

  lemma {:induction false} MappingExact(x: Extraction, value: Annotation, v: Json)
    requires v.JObject? ==> forall key :: key in v.fields ==> AgreeOn(JObject(x.schema), value, v.fields[key])
    ensures Accepts(JObject(Typed("object")["additionalProperties" := JObject(x.schema)]), v)
       <==> Member(Mapping(Primitive(Str), value), v)
  {
    MappingMeans(x, v);
    if v.JObject? {
      assert forall key :: key in v.fields ==> AgreeOn(JObject(x.schema), value, v.fields[key]);
    }
  }

  lemma {:induction false} MappingMeans(x: Extraction, v: Json)
    ensures Accepts(JObject(Typed("object")["additionalProperties" := JObject(x.schema)]), v)
       <==> v.JObject? && forall key :: key in v.fields ==> Accepts(JObject(x.schema), v.fields[key])
  {
    var m := Typed("object")["additionalProperties" := JObject(x.schema)];
    if v.JObject? {
      assert AcceptsObject(JObject(m), v.fields)
        <==> forall key :: key in v.fields ==> Accepts(JObject(x.schema), v.fields[key]);
    }
  }

  /** On the fields of `v`, each property's schema and annotation say the same. */
  ghost predicate FieldsAgree(fields: seq<Field>, properties: map<string, Json>, v: map<string, Json>) {
    forall i :: 0 <= i < |fields| && fields[i].name in v ==>
      fields[i].name in properties && AgreeOn(properties[fields[i].name], fields[i].annotation, v[fields[i].name])
  }

  lemma {:induction false} PropertiesExact(fields: seq<Field>, properties: map<string, Json>, v: map<string, Json>)
    requires FieldsAgree(fields, properties, v)
    requires forall name :: name in properties <==> HasField(fields, name)
    ensures (forall key :: key in v && key in properties ==> Accepts(properties[key], v[key]))
       <==> (forall i :: 0 <= i < |fields| && fields[i].name in v ==> Member(fields[i].annotation, v[fields[i].name]))
  {
    if forall key :: key in v && key in properties ==> Accepts(properties[key], v[key]) {
      forall i | 0 <= i < |fields| && fields[i].name in v
        ensures Member(fields[i].annotation, v[fields[i].name])
      {
        assert AgreeOn(properties[fields[i].name], fields[i].annotation, v[fields[i].name]);
      }
    }
    if forall i :: 0 <= i < |fields| && fields[i].name in v ==> Member(fields[i].annotation, v[fields[i].name]) {
      forall key | key in v && key in properties
        ensures Accepts(properties[key], v[key])
      {
        assert HasField(fields, key);
        var i :| 0 <= i < |fields| && fields[i].name == key;
        assert AgreeOn(properties[key], fields[i].annotation, v[key]);
      }
    }
  }

  /** What the three object keywords of a compiled dataclass amount to. */
  lemma {:induction false} ObjectWithMeans(p: Properties, v: map<string, Json>)
    requires forall x :: x in p.required ==> x.JString?
    ensures AcceptsObject(JObject(ObjectWith(p).schema), v) <==>
              && (forall key :: key in v && key in p.properties ==> Accepts(p.properties[key], v[key]))
              && (forall key :: key in v ==> key in p.properties)
              && (forall name :: JString(name) in p.required ==> name in v)
  {
    var m := ObjectWith(p).schema;
    assert m["properties"] == JObject(p.properties) && m["additionalProperties"] == JBool(false);
    assert forall key :: Listed(m, key) <==> key in p.properties;
    assert "required" in m <==> p.required != [];
    if p.required != [] {
      assert m["required"] == JArray(p.required);
      if forall name :: JString(name) in p.required ==> name in v {
        forall x | x in p.required
          ensures x.JString? && x.s in v
        {
          assert JString(x.s) == x;
        }
      }
    }
  }

  lemma {:induction false} DataclassExact(fields: seq<Field>, p: Properties, v: Json)
    requires v.JObject? ==> FieldsAgree(fields, p.properties, v.fields)
    requires forall name :: name in p.properties <==> HasField(fields, name)
    requires forall name :: JString(name) in p.required <==> HasRequired(fields, name)
    requires forall x :: x in p.required ==> x.JString?
    ensures Accepts(JObject(ObjectWith(p).schema), v) <==> Member(Dataclass(fields), v)
  {
    if v.JObject? {
      ObjectWithMeans(p, v.fields);
      PropertiesExact(fields, p.properties, v.fields);
      RequiredMeans(fields, p, v.fields);
      KeysMean(fields, p, v.fields);
    }
  }

  lemma {:induction false} RequiredMeans(fields: seq<Field>, p: Properties, v: map<string, Json>)
    requires forall name :: JString(name) in p.required <==> HasRequired(fields, name)
    ensures (forall name :: JString(name) in p.required ==> name in v)
       <==> (forall i :: 0 <= i < |fields| && fields[i].required ==> fields[i].name in v)
  {
    if forall name :: JString(name) in p.required ==> name in v {
      forall i | 0 <= i < |fields| && fields[i].required
        ensures fields[i].name in v
      {
        assert HasRequired(fields, fields[i].name);
        assert JString(fields[i].name) in p.required;
      }
    }
  }

  lemma {:induction false} KeysMean(fields: seq<Field>, p: Properties, v: map<string, Json>)
    requires forall name :: name in p.properties <==> HasField(fields, name)
    ensures (forall key :: key in v ==> key in p.properties)
       <==> (forall key :: key in v ==> exists i :: 0 <= i < |fields| && fields[i].name == key)
  {
  }

  // ----- The theorem -----

  /** The schema compiled from an annotation accepts a JSON value if and only if
      it encodes a value of that type. */
  lemma {:induction false} CompiledSchemaIsExact(t: Annotation, path: seq<string>, v: Json)
    requires Named(t) && Compile(t, path).Some?
    ensures Accepts(JObject(Compile(t, path).value.schema), v) <==> Member(t, v)
    decreases t, 1
  {
    BareSchemaIsExact(if t.Annotated? then t.inner else t, path, v);
  }

  lemma {:induction false} BareSchemaIsExact(t: Annotation, path: seq<string>, v: Json)
    requires Named(t) && CompileBare(t, path).Some?
    ensures Accepts(JObject(CompileBare(t, path).value.schema), v) <==> Member(t, v)
    decreases t, 0
  {
    match t
    case Primitive(p) => PrimitiveExact(p, v);
    case Union(args) => UnionIsExact(args, path, v);
    case List(item) => ItemsAreExact(item, path, v); ArrayExact(Compile(item, path).value, item, v);
    case VarTuple(item) => ItemsAreExact(item, path, v); ArrayExact(Compile(item, path).value, item, v);
    case Tuple(args) => TupleIsExact(args, path, v);
    case Mapping(_, value) => MappingIsExact(value, path, v);
    case Enum(members) => EnumExact(members, v);
    case Dataclass(fields) => DataclassIsExact(fields, path, v);
  }

  lemma {:induction false} ItemsAreExact(item: Annotation, path: seq<string>, v: Json)
    requires Named(item) && Compile(item, path).Some?
    ensures v.JArray? ==> forall i :: 0 <= i < |v.items| ==>
        AgreeOn(JObject(Compile(item, path).value.schema), item, v.items[i])
    decreases item, 2
  {
    if v.JArray? {
      forall i | 0 <= i < |v.items|
        ensures AgreeOn(JObject(Compile(item, path).value.schema), item, v.items[i])
      {
        CompiledSchemaIsExact(item, path, v.items[i]);
      }
    }
  }

  lemma {:induction false} MappingIsExact(value: Annotation, path: seq<string>, v: Json)
    requires Named(value) && Compile(value, path).Some?
    ensures Accepts(JObject(Typed("object")["additionalProperties" := JObject(Compile(value, path).value.schema)]), v)
       <==> Member(Mapping(Primitive(Str), value), v)
    decreases value, 2
  {
    var x := Compile(value, path).value;
    if v.JObject? {
      forall key | key in v.fields
        ensures AgreeOn(JObject(x.schema), value, v.fields[key])
      {
        CompiledSchemaIsExact(value, path, v.fields[key]);
      }
    }
    MappingExact(x, value, v);
  }

  lemma {:induction false} UnionIsExact(args: seq<Annotation>, path: seq<string>, v: Json)
    requires CompileAll(args, path).Some? && forall i :: 0 <= i < |args| ==> Named(args[i])
    ensures Accepts(JObject(map["anyOf" := JArray(CompileAll(args, path).value.schemas)]), v)
       <==> Member(Union(args), v)
    decreases args
  {
    AllAt(args, path);
    var all := CompileAll(args, path).value;
    forall i | 0 <= i < |args|
      ensures AgreeOn(all.schemas[i], args[i], v)
    {
      CompiledSchemaIsExact(args[i], path, v);
    }
    UnionExact(all, args, v);
  }

  lemma {:induction false} TupleIsExact(args: seq<Annotation>, path: seq<string>, v: Json)
    requires CompileAll(args, path).Some? && forall i :: 0 <= i < |args| ==> Named(args[i])
    ensures Accepts(JObject(FixedArray(CompileAll(args, path).value).schema), v) <==> Member(Tuple(args), v)
    decreases args
  {
    AllAt(args, path);
    var all := CompileAll(args, path).value;
    if v.JArray? {
      forall i | 0 <= i < |v.items| && i < |args|
        ensures AgreeOn(all.schemas[i], args[i], v.items[i])
      {
        CompiledSchemaIsExact(args[i], path, v.items[i]);
      }
    }
    TupleExact(all, args, v);
  }

  lemma {:induction false} DataclassIsExact(fields: seq<Field>, path: seq<string>, v: Json)
    requires CompileFields(fields, path).Some? && Distinct(fields)
    requires forall i :: 0 <= i < |fields| ==> Named(fields[i].annotation)
    ensures Accepts(JObject(ObjectWith(CompileFields(fields, path).value).schema), v) <==> Member(Dataclass(fields), v)
    decreases fields
  {
    var p := CompileFields(fields, path).value;
    FieldsAt(fields, path);
    RequiredAreStrings(fields, path);
    forall name
      ensures name in p.properties <==> HasField(fields, name)
      ensures JString(name) in p.required <==> HasRequired(fields, name)
    {
      FieldNames(fields, path, name);
    }
    if v.JObject? {
      forall i | 0 <= i < |fields| && fields[i].name in v.fields
        ensures fields[i].name in p.properties
        ensures AgreeOn(p.properties[fields[i].name], fields[i].annotation, v.fields[fields[i].name])
      {
        assert FieldAt(p.properties, fields[i], path);
        CompiledSchemaIsExact(fields[i].annotation, path + [fields[i].name], v.fields[fields[i].name]);
      }
    }
    DataclassExact(fields, p, v);
  }
}
