/** Tool schemas derived from type annotations
    (core/spakky-agent/src/spakky/agent/tooling.py) and the sensitivity
    metadata attached to them (core/spakky-agent/src/spakky/agent/safety.py).

    A schema is a JSON value.  `Accepts` gives it its meaning: the keywords the
    source emits, as JSON Schema draft 2020-12 defines them (sections 10.2.1.2,
    10.3.1 and 10.3.2 of the Core specification; sections 6.1, 6.4 and 6.5.3 of
    the Validation specification). */
module Schema {
  import opened Wrappers

  datatype Json =
    | JNull
    | JBool(b: bool)
    | JNumber(n: real)
    | JString(s: string)
    | JArray(items: seq<Json>)
    | JObject(fields: map<string, Json>)

  // ----- Annotations -----

  datatype Primitive = Str | Int | Float | Bool | NoneType

  /** A Python enum member's value; `Other` is anything but a JSON primitive. */
  datatype Constant = OfBool(b: bool) | OfStr(s: string) | OfInt(i: int) | OfFloat(r: real) | OfNone | Other

  datatype Field = Field(name: string, annotation: Annotation, required: bool)

  /** `Annotated` carries only the sensitivity marks among its metadata. */
  datatype Annotation =
    | Primitive(p: Primitive)
    | AnyType
    | Union(args: seq<Annotation>)
    | List(item: Annotation)
    | VarTuple(item: Annotation)
    | Tuple(args: seq<Annotation>)
    | Mapping(key: Annotation, value: Annotation)
    | Enum(members: seq<Constant>)
    | Dataclass(fields: seq<Field>)
    | Annotated(inner: Annotation, marks: seq<Json>)
    | Unsupported

  /** A sensitive value: where it is and the metadata that describes it. */
  datatype Descriptor = Descriptor(path: seq<string>, mark: Json)

  datatype Extraction = Extraction(schema: map<string, Json>, sensitive: seq<Descriptor>)

  /** The schemas of several annotations, in order. */
  datatype Several = Several(schemas: seq<Json>, sensitive: seq<Descriptor>)

  /** The properties and required names of several fields. */
  datatype Properties = Properties(properties: map<string, Json>, required: seq<Json>, sensitive: seq<Descriptor>)

  // ----- What a schema accepts -----

  predicate HasType(name: Json, v: Json) {
    name.JString? &&
    match name.s
    case "null" => v.JNull?
    case "boolean" => v.JBool?
    case "string" => v.JString?
    case "number" => v.JNumber?
    case "integer" => v.JNumber? && v.n == v.n.Floor as real
    case "array" => v.JArray?
    case "object" => v.JObject?
    case _ => false
  }

  ghost predicate Accepts(schema: Json, v: Json)
    decreases schema
  {
    match schema
    case JBool(b) => b
    case JObject(m) =>
      && ("type" in m ==> HasType(m["type"], v))
      && ("enum" in m ==> m["enum"].JArray? && v in m["enum"].items)
      && ("anyOf" in m ==> m["anyOf"].JArray?)
      && ("anyOf" in m ==> exists i :: 0 <= i < |m["anyOf"].items| && Accepts(m["anyOf"].items[i], v))
      && (v.JArray? ==> AcceptsArray(schema, v.items))
      && (v.JObject? ==> AcceptsObject(schema, v.fields))
    case _ => false
  }

  /** The number of items that `prefixItems` speaks about. */
  function PrefixLength(m: map<string, Json>): nat {
    if "prefixItems" in m && m["prefixItems"].JArray? then |m["prefixItems"].items| else 0
  }

  ghost predicate AcceptsArray(schema: Json, items: seq<Json>)
    requires schema.JObject?
    decreases schema, 0
  {
    var m := schema.fields;
    && ("prefixItems" in m ==> m["prefixItems"].JArray?)
    && (forall i :: 0 <= i < |items| && i < PrefixLength(m) ==> Accepts(m["prefixItems"].items[i], items[i]))
    && ("items" in m ==> forall i :: PrefixLength(m) <= i < |items| ==> Accepts(m["items"], items[i]))
    && ("minItems" in m ==> m["minItems"].JNumber? && m["minItems"].n <= |items| as real)
    && ("maxItems" in m ==> m["maxItems"].JNumber? && |items| as real <= m["maxItems"].n)
  }

  predicate Listed(m: map<string, Json>, key: string) {
    "properties" in m && m["properties"].JObject? && key in m["properties"].fields
  }

  ghost predicate AcceptsObject(schema: Json, fields: map<string, Json>)
    requires schema.JObject?
    decreases schema, 0
  {
    var m := schema.fields;
    && ("properties" in m ==> m["properties"].JObject?)
    && (forall key :: key in fields && Listed(m, key) ==> Accepts(m["properties"].fields[key], fields[key]))
    && ("additionalProperties" in m ==>
          forall key :: key in fields && !Listed(m, key) ==> Accepts(m["additionalProperties"], fields[key]))
    && ("required" in m ==> m["required"].JArray?)
    && ("required" in m ==> forall name :: name in m["required"].items ==> name.JString? && name.s in fields)
  }

  // ----- What an annotation means -----

  function Encode(c: Constant): Json
    requires !c.Other?
  {
    match c
    case OfBool(b) => JBool(b)
    case OfStr(s) => JString(s)
    case OfInt(i) => JNumber(i as real)
    case OfFloat(r) => JNumber(r)
    case OfNone => JNull
  }

  /** The JSON values that encode a value of the annotated type. */
  ghost predicate Member(t: Annotation, v: Json)
    decreases t
  {
    match t
    case Primitive(p) =>
      (match p
       case Str => v.JString?
       case Int => exists i: int :: v == Encode(OfInt(i))
       case Float => v.JNumber?
       case Bool => v.JBool?
       case NoneType => v.JNull?)
    case Union(args) => exists i :: 0 <= i < |args| && Member(args[i], v)
    case List(item) => v.JArray? && forall i :: 0 <= i < |v.items| ==> Member(item, v.items[i])
    case VarTuple(item) => v.JArray? && forall i :: 0 <= i < |v.items| ==> Member(item, v.items[i])
    case Tuple(args) => v.JArray? && |v.items| == |args| && forall i :: 0 <= i < |args| ==> Member(args[i], v.items[i])
    case Mapping(_, value) => v.JObject? && forall key :: key in v.fields ==> Member(value, v.fields[key])
    case Enum(members) => exists i :: 0 <= i < |members| && !members[i].Other? && v == Encode(members[i])
    case Dataclass(fields) =>
      && v.JObject?
      && (forall key :: key in v.fields ==> exists i :: 0 <= i < |fields| && fields[i].name == key)
      && (forall i :: 0 <= i < |fields| && fields[i].required ==> fields[i].name in v.fields)
      && (forall i :: 0 <= i < |fields| && fields[i].name in v.fields ==>
            Member(fields[i].annotation, v.fields[fields[i].name]))
    case Annotated(inner, _) => Member(inner, v)
    case AnyType => true
    case Unsupported => false
  }

  // ----- The compiler -----

  function TypeName(p: Primitive): string {
    match p
    case Str => "string"
    case Int => "integer"
    case Float => "number"
    case Bool => "boolean"
    case NoneType => "null"
  }

  function ConstantType(c: Constant): Option<string> {
    match c
    case OfBool(_) => Some("boolean")
    case OfStr(_) => Some("string")
    case OfInt(_) => Some("integer")
    case OfFloat(_) => Some("number")
    case OfNone => Some("null")
    case Other => None
  }

  function Typed(name: string): map<string, Json> {
    map["type" := JString(name)]
  }

  function DescriptorsFor(path: seq<string>, marks: seq<Json>): seq<Descriptor> {
    seq(|marks|, i requires 0 <= i < |marks| => Descriptor(path, marks[i]))
  }

  function ArrayOf(item: Extraction): Extraction {
    Extraction(Typed("array")["items" := JObject(item.schema)], item.sensitive)
  }

  function FixedArray(args: Several): Extraction {
    var size := JNumber(|args.schemas| as real);
    Extraction(Typed("array")["prefixItems" := JArray(args.schemas)]["minItems" := size]["maxItems" := size],
        args.sensitive)
  }

  function ObjectWith(p: Properties): Extraction {
    var schema := Typed("object")["properties" := JObject(p.properties)]["additionalProperties" := JBool(false)];
    Extraction(if p.required == [] then schema else schema["required" := JArray(p.required)], p.sensitive)
  }

  function Encoded(members: seq<Constant>): Option<seq<Json>>
    decreases |members|
  {
    if members == [] then Some([])
    else
      var n := |members| - 1;
      var rest := Encoded(members[..n]);
      if rest.None? || members[n].Other? then None else Some(rest.value + [Encode(members[n])])
  }

  function EnumTypes(members: seq<Constant>): set<string> {
    set i | 0 <= i < |members| && !members[i].Other? :: ConstantType(members[i]).value
  }

  function EnumSchema(members: seq<Constant>): Option<map<string, Json>> {
    var values := Encoded(members);
    if values.None? then None
    else if exists name :: name in EnumTypes(members) && EnumTypes(members) == {name} then
      var name :| name in EnumTypes(members) && EnumTypes(members) == {name};
      Some(map["enum" := JArray(values.value)]["type" := JString(name)])
    else Some(map["enum" := JArray(values.value)])
  }

  /** `_schema_for_annotation`: one Annotated is unwrapped, then the kind decides. */
  function Compile(t: Annotation, path: seq<string>): Option<Extraction>
    decreases t, 1
  {
    if t.Annotated? then
      var x := CompileBare(t.inner, path);
      if x.None? then None else Some(x.value.(sensitive := DescriptorsFor(path, t.marks) + x.value.sensitive))
    else CompileBare(t, path)
  }

  function CompileBare(t: Annotation, path: seq<string>): Option<Extraction>
    decreases t, 0
  {
    match t
    case Primitive(p) => Some(Extraction(Typed(TypeName(p)), []))
    case Union(args) =>
      var all := CompileAll(args, path);
      if all.None? then None else Some(Extraction(map["anyOf" := JArray(all.value.schemas)], all.value.sensitive))
    case List(item) =>
      var x := Compile(item, path);
      if x.None? then None else Some(ArrayOf(x.value))
    case VarTuple(item) =>
      var x := Compile(item, path);
      if x.None? then None else Some(ArrayOf(x.value))
    case Tuple(args) =>
      var all := CompileAll(args, path);
      if all.None? then None else Some(FixedArray(all.value))
    case Mapping(key, value) =>
      if key != Primitive(Str) then None
      else
        var x := Compile(value, path);
        if x.None? then None
        else Some(Extraction(Typed("object")["additionalProperties" := JObject(x.value.schema)], x.value.sensitive))
    case Enum(members) =>
      var schema := EnumSchema(members);
      if schema.None? then None else Some(Extraction(schema.value, []))
    case Dataclass(fields) =>
      var all := CompileFields(fields, path);
      if all.None? then None else Some(ObjectWith(all.value))
    case AnyType => None
    case Annotated(_, _) => None
    case Unsupported => None
  }

  function CompileAll(args: seq<Annotation>, path: seq<string>): Option<Several>
    decreases args
  {
    if args == [] then Some(Several([], []))
    else
      var n := |args| - 1;
      var rest := CompileAll(args[..n], path);
      var last := Compile(args[n], path);
      if rest.None? || last.None? then None
      else Some(Several(rest.value.schemas + [JObject(last.value.schema)], rest.value.sensitive + last.value.sensitive))
  }

  function AddField(p: Properties, f: Field, x: Extraction): Properties {
    Properties(p.properties[f.name := JObject(x.schema)],
               if f.required then p.required + [JString(f.name)] else p.required,
               p.sensitive + x.sensitive)
  }

  function CompileFields(fields: seq<Field>, path: seq<string>): Option<Properties>
    decreases fields
  {
    if fields == [] then Some(Properties(map[], [], []))
    else
      var n := |fields| - 1;
      var rest := CompileFields(fields[..n], path);
      var last := Compile(fields[n].annotation, path + [fields[n].name]);
      if rest.None? || last.None? then None else Some(AddField(rest.value, fields[n], last.value))
  }
}
