/** Which sensitivity marks of an annotation reach its schema: a mark's path
    follows dataclass fields only, so a marked field behind a list, tuple,
    mapping or union is described but never attached. */
module SensitiveMetadata {
  import opened Wrappers
  import opened Schema
  import opened SchemaProperties
  import opened ToolSchemas

  /** Some mark occurs in the annotation. */
  predicate Marked(t: Annotation)
    decreases t
  {
    match t
    case Union(args) => exists i :: 0 <= i < |args| && Marked(args[i])
    case List(item) => Marked(item)
    case VarTuple(item) => Marked(item)
    case Tuple(args) => exists i :: 0 <= i < |args| && Marked(args[i])
    case Mapping(_, value) => Marked(value)
    case Dataclass(fields) => exists i :: 0 <= i < |fields| && Marked(fields[i].annotation)
    case Annotated(inner, marks) => marks != [] || Marked(inner)
    case _ => false
  }

  /** Some mark occurs inside a dataclass of the annotation. */
  predicate MarkedInside(t: Annotation)
    decreases t
  {
    match t
    case Union(args) => exists i :: 0 <= i < |args| && MarkedInside(args[i])
    case List(item) => MarkedInside(item)
    case VarTuple(item) => MarkedInside(item)
    case Tuple(args) => exists i :: 0 <= i < |args| && MarkedInside(args[i])
    case Mapping(_, value) => MarkedInside(value)
    case Dataclass(fields) => exists i :: 0 <= i < |fields| && Marked(fields[i].annotation)
    case Annotated(inner, _) => MarkedInside(inner)
    case _ => false
  }

  /** No container hides a marked dataclass field. */
  predicate Visible(t: Annotation)
    decreases t
  {
    match t
    case Dataclass(fields) => forall i :: 0 <= i < |fields| ==> Visible(fields[i].annotation)
    case Annotated(inner, _) => Visible(inner)
    case _ => !MarkedInside(t)
  }

  predicate Within(d: Descriptor, path: seq<string>) {
    path <= d.path
  }

  /** The mark that `d` describes has a place in the schema at `path`. */
  predicate Placed(d: Descriptor, path: seq<string>, schema: map<string, Json>) {
    Within(d, path) && Resolves(schema, d.path[|path|..])
  }

  /** Descriptors stay under the path; there are some exactly when the
      annotation is marked, and some strictly below exactly when it is inside. */
  predicate Describes(sensitive: seq<Descriptor>, path: seq<string>, marked: bool, inside: bool) {
    && (forall d :: d in sensitive ==> Within(d, path))
    && (marked <==> exists d :: d in sensitive && Within(d, path))
    && (inside <==> exists d :: d in sensitive && Within(d, path) && d.path != path)
  }

  lemma {:induction false} DescribesBoth(
      a: seq<Descriptor>, b: seq<Descriptor>, path: seq<string>, m: bool, n: bool, i: bool, j: bool)
    requires Describes(a, path, m, i) && Describes(b, path, n, j)
    ensures Describes(a + b, path, m || n, i || j)
  {
    assert forall d :: d in a + b <==> d in a || d in b;
  }

  lemma {:induction false} CompiledDescribes(t: Annotation, path: seq<string>)
    requires Compile(t, path).Some?
    ensures Describes(Compile(t, path).value.sensitive, path, Marked(t), MarkedInside(t))
    decreases t, 1
  {
    if t.Annotated? {
      BareDescribes(t.inner, path);
      var own := DescriptorsFor(path, t.marks);
      assert forall d :: d in own ==> d.path == path;
      if t.marks != [] { assert own[0] in own && Within(own[0], path); }
      assert Describes(own, path, t.marks != [], false);
      DescribesBoth(own, CompileBare(t.inner, path).value.sensitive, path, t.marks != [], Marked(t.inner), false,
          MarkedInside(t.inner));
    } else {
      BareDescribes(t, path);
    }
  }

  lemma {:induction false} BareDescribes(t: Annotation, path: seq<string>)
    requires CompileBare(t, path).Some?
    ensures Describes(CompileBare(t, path).value.sensitive, path, Marked(t), MarkedInside(t))
    decreases t, 0
  {
    match t
    case Union(args) => AllDescribe(args, path);
    case List(item) => CompiledDescribes(item, path);
    case VarTuple(item) => CompiledDescribes(item, path);
    case Tuple(args) => AllDescribe(args, path);
    case Mapping(_, value) => CompiledDescribes(value, path);
    case Dataclass(fields) => FieldsDescribe(fields, path);
    case _ =>
  }

  lemma {:induction false} AllDescribe(args: seq<Annotation>, path: seq<string>)
    requires CompileAll(args, path).Some?
    ensures Describes(CompileAll(args, path).value.sensitive, path, Marked(Union(args)), MarkedInside(Union(args)))
    decreases args
  {
    if args != [] {
      var n := |args| - 1;
      AllDescribe(args[..n], path);
      CompiledDescribes(args[n], path);
      LastMarked(args);
      DescribesBoth(CompileAll(args[..n], path).value.sensitive, Compile(args[n], path).value.sensitive, path,
                    Marked(Union(args[..n])), Marked(args[n]), MarkedInside(Union(args[..n])), MarkedInside(args[n]));
    }
  }

  lemma {:induction false} LastMarked(args: seq<Annotation>)
    requires args != []
    ensures var n := |args| - 1;
            && (Marked(Union(args)) <==> Marked(Union(args[..n])) || Marked(args[n]))
            && (MarkedInside(Union(args)) <==> MarkedInside(Union(args[..n])) || MarkedInside(args[n]))
  {
    var n := |args| - 1;
    assert forall i :: 0 <= i < n ==> args[..n][i] == args[i];
    if i :| 0 <= i < n && Marked(args[i]) { assert Marked(args[..n][i]); }
    if i :| 0 <= i < n && MarkedInside(args[i]) { assert MarkedInside(args[..n][i]); }
  }

  lemma {:induction false} LastFieldMarked(fields: seq<Field>)
    requires fields != []
    ensures var n := |fields| - 1;
            Marked(Dataclass(fields)) <==> Marked(Dataclass(fields[..n])) || Marked(fields[n].annotation)
  {
    var n := |fields| - 1;
    assert forall i :: 0 <= i < n ==> fields[..n][i] == fields[i];
    if i :| 0 <= i < n && Marked(fields[i].annotation) { assert Marked(fields[..n][i].annotation); }
  }

  lemma {:induction false} FieldsDescribe(fields: seq<Field>, path: seq<string>)
    requires CompileFields(fields, path).Some?
    ensures Describes(CompileFields(fields, path).value.sensitive, path, Marked(Dataclass(fields)),
        Marked(Dataclass(fields)))
    decreases fields
  {
    if fields != [] {
      var n := |fields| - 1;
      var f := fields[n];
      FieldsDescribe(fields[..n], path);
      CompiledDescribes(f.annotation, path + [f.name]);
      var own := Compile(f.annotation, path + [f.name]).value.sensitive;
      DeeperDescribes(own, path, f.name, Marked(f.annotation), MarkedInside(f.annotation));
      LastFieldMarked(fields);
      DescribesBoth(CompileFields(fields[..n], path).value.sensitive, own, path,
                    Marked(Dataclass(fields[..n])), Marked(f.annotation),
                    Marked(Dataclass(fields[..n])), Marked(f.annotation));
    }
  }

  lemma {:induction false} DeeperDescribes(
      sensitive: seq<Descriptor>, path: seq<string>, name: string, marked: bool, inside: bool)
    requires Describes(sensitive, path + [name], marked, inside)
    ensures Describes(sensitive, path, marked, marked)
  {
    forall d | d in sensitive
      ensures Within(d, path) && d.path != path
    {
      assert Within(d, path + [name]);
    }
    if marked {
      var d :| d in sensitive && Within(d, path + [name]);
      assert Within(d, path) && d.path != path;
    }
  }

  // ----- Which marks have a place -----

  ghost predicate AllPlaced(sensitive: seq<Descriptor>, path: seq<string>, schema: map<string, Json>) {
    forall d :: d in sensitive ==> Placed(d, path, schema)
  }

  /** Without `properties` only marks at the path itself have a place. */
  lemma {:induction false} FlatPlaces(
      sensitive: seq<Descriptor>, path: seq<string>, schema: map<string, Json>, marked: bool, inside: bool)
    requires Describes(sensitive, path, marked, inside) && "properties" !in schema
    ensures AllPlaced(sensitive, path, schema) <==> !inside
  {
    forall d | d in sensitive
      ensures Placed(d, path, schema) <==> d.path == path
    {
      assert Within(d, path);
      assert d.path == path + d.path[|path|..];
    }
    if inside {
      var d :| d in sensitive && Within(d, path) && d.path != path;
      assert !Placed(d, path, schema);
    }
  }

  /** Every mark of an annotation has a place in its compiled schema if and
      only if no container hides a marked dataclass field. */
  lemma {:induction false} MarksAreShownIffVisible(t: Annotation, path: seq<string>)
    requires Named(t) && Compile(t, path).Some?
    ensures AllPlaced(Compile(t, path).value.sensitive, path, Compile(t, path).value.schema) <==> Visible(t)
    decreases t, 1
  {
    if t.Annotated? {
      BareShownIffVisible(t.inner, path);
      var x := CompileBare(t.inner, path).value;
      var own := DescriptorsFor(path, t.marks);
      forall d | d in own
        ensures Placed(d, path, x.schema)
      {
        assert d.path == path;
      }
      assert forall d :: d in own + x.sensitive <==> d in own || d in x.sensitive;
    } else {
      BareShownIffVisible(t, path);
    }
  }

  lemma {:induction false} BareShownIffVisible(t: Annotation, path: seq<string>)
    requires Named(t) && CompileBare(t, path).Some?
    ensures AllPlaced(CompileBare(t, path).value.sensitive, path, CompileBare(t, path).value.schema) <==> Visible(t)
    decreases t, 0
  {
    var x := CompileBare(t, path).value;
    if t.Dataclass? {
      FieldsAt(t.fields, path);
      FieldsShownIffVisible(t.fields, path, x.schema);
    } else {
      BareDescribes(t, path);
      FlatPlaces(x.sensitive, path, x.schema, Marked(t), MarkedInside(t));
    }
  }

  lemma {:induction false} PlacedBoth(
      a: seq<Descriptor>, b: seq<Descriptor>, path: seq<string>, schema: map<string, Json>)
    ensures AllPlaced(a + b, path, schema) <==> AllPlaced(a, path, schema) && AllPlaced(b, path, schema)
  {
    assert forall d :: d in a + b <==> d in a || d in b;
  }

  predicate AllVisible(fields: seq<Field>) {
    forall i :: 0 <= i < |fields| ==> Visible(fields[i].annotation)
  }

  lemma {:induction false} LastVisible(fields: seq<Field>)
    requires fields != []
    ensures var n := |fields| - 1; AllVisible(fields) <==> AllVisible(fields[..n]) && Visible(fields[n].annotation)
  {
    var n := |fields| - 1;
    assert forall i :: 0 <= i < n ==> fields[..n][i] == fields[i];
  }

  lemma {:induction false} FieldsShownIffVisible(fields: seq<Field>, path: seq<string>, schema: map<string, Json>)
    requires CompileFields(fields, path).Some?
    requires forall i :: 0 <= i < |fields| ==> Named(fields[i].annotation)
    requires "properties" in schema && schema["properties"].JObject?
    requires forall i :: 0 <= i < |fields| ==> FieldAt(schema["properties"].fields, fields[i], path)
    ensures AllPlaced(CompileFields(fields, path).value.sensitive, path, schema) <==> AllVisible(fields)
    decreases fields
  {
    if fields != [] {
      var n := |fields| - 1;
      var f := fields[n];
      FieldsShownIffVisible(fields[..n], path, schema);
      LastVisible(fields);
      MarksAreShownIffVisible(f.annotation, path + [f.name]);
      CompiledDescribes(f.annotation, path + [f.name]);
      FieldShown(f, path, schema);
      PlacedBoth(CompileFields(fields[..n], path).value.sensitive,
          Compile(f.annotation, path + [f.name]).value.sensitive, path, schema);
    }
  }

  /** A field's marks have a place in the object exactly when in the field's schema. */
  lemma {:induction false} FieldShown(f: Field, path: seq<string>, schema: map<string, Json>)
    requires "properties" in schema && schema["properties"].JObject? && FieldAt(schema["properties"].fields, f, path)
    requires forall d :: d in Compile(f.annotation, path + [f.name]).value.sensitive ==> Within(d, path + [f.name])
    ensures var x := Compile(f.annotation, path + [f.name]).value;
            AllPlaced(x.sensitive, path, schema) <==> AllPlaced(x.sensitive, path + [f.name], x.schema)
  {
    var x := Compile(f.annotation, path + [f.name]).value;
    forall d | d in x.sensitive
      ensures Placed(d, path, schema) <==> Placed(d, path + [f.name], x.schema)
    {
      assert Within(d, path + [f.name]);
      var below := d.path[|path|..];
      assert below[0] == (path + [f.name])[|path|];
      assert below[1..] == d.path[|path + [f.name]|..];
    }
  }

  /** A list hides every mark on a field of its items. */
  lemma {:induction false} ListHidesMarks(fields: seq<Field>, path: seq<string>)
    requires Named(Dataclass(fields)) && Supported(Dataclass(fields)) && MarkedInside(Dataclass(fields))
    ensures Compile(List(Dataclass(fields)), path).Some?
    ensures var x := Compile(List(Dataclass(fields)), path).value;
            x.sensitive != [] && !AllPlaced(x.sensitive, path, x.schema)
  {
    var t := List(Dataclass(fields));
    CompilesIffSupported(t, path);
    MarksAreShownIffVisible(t, path);
  }

  /** The fields of a record with one sensitive string. */
  function Secret(mark: Json): seq<Field> {
    [Field("token", Annotated(Primitive(Str), [mark]), true)]
  }

  lemma {:induction false} SecretIsMarked(mark: Json, fields: seq<Field>, token: Annotation)
    requires token == Annotated(Primitive(Str), [mark]) && fields == [Field("token", token, true)]
    ensures Named(Dataclass(fields)) && Supported(Dataclass(fields)) && MarkedInside(Dataclass(fields))
  {
    assert Supported(token) && Marked(token) && Named(token);
    assert fields[0].annotation == token && Distinct(fields);
  }

  /** So a list of such records is described as sensitive, but its schema does
      not say so. */
  lemma {:induction false} ListOfSecrets(mark: Json, path: seq<string>)
    ensures Compile(List(Dataclass(Secret(mark))), path).Some?
    ensures var x := Compile(List(Dataclass(Secret(mark))), path).value;
            x.sensitive != [] && !AllPlaced(x.sensitive, path, x.schema)
  {
    SecretIsMarked(mark, Secret(mark), Annotated(Primitive(Str), [mark]));
    ListHidesMarks(Secret(mark), path);
  }

  // ----- Exactly which marks are described -----

  /** Following the field names `below`, through any containers on the way, leads
      to an annotation that carries the mark. */
  predicate CarriesMark(t: Annotation, below: seq<string>, mark: Json)
    decreases t
  {
    match t
    case Annotated(inner, marks) => (below == [] && mark in marks) || CarriesMark(inner, below, mark)
    case Union(args) => exists i :: 0 <= i < |args| && CarriesMark(args[i], below, mark)
    case List(item) => CarriesMark(item, below, mark)
    case VarTuple(item) => CarriesMark(item, below, mark)
    case Tuple(args) => exists i :: 0 <= i < |args| && CarriesMark(args[i], below, mark)
    case Mapping(_, value) => CarriesMark(value, below, mark)
    case Dataclass(fields) =>
      below != [] &&
      exists i :: 0 <= i < |fields| && fields[i].name == below[0] && CarriesMark(fields[i].annotation, below[1..], mark)
    case _ => false
  }

  /** The descriptor is of a mark that the annotation at `path` carries. */
  predicate Due(t: Annotation, path: seq<string>, d: Descriptor) {
    path <= d.path && CarriesMark(t, d.path[|path|..], d.mark)
  }

  /** Compiling an annotation describes exactly the marks it carries, each with
      the path of field names that leads to it. */
  lemma {:induction false} DescribesExactlyItsMarks(t: Annotation, path: seq<string>, d: Descriptor)
    requires Compile(t, path).Some?
    ensures d in Compile(t, path).value.sensitive <==> Due(t, path, d)
    decreases t, 1
  {
    if t.Annotated? {
      BareDescribesItsMarks(t.inner, path, d);
      var own := DescriptorsFor(path, t.marks);
      assert d in own <==> d.path == path && d.mark in t.marks by {
        if d.path == path && d.mark in t.marks {
          var i :| 0 <= i < |t.marks| && t.marks[i] == d.mark;
          assert own[i] == d;
        }
      }
      if path <= d.path {
        assert d.path == path <==> d.path[|path|..] == [];
      }
    } else {
      BareDescribesItsMarks(t, path, d);
    }
  }

  lemma {:induction false} BareDescribesItsMarks(t: Annotation, path: seq<string>, d: Descriptor)
    requires CompileBare(t, path).Some?
    ensures d in CompileBare(t, path).value.sensitive <==> Due(t, path, d)
    decreases t, 0
  {
    match t
    case Union(args) => AllDescribeTheirMarks(args, path, d);
    case List(item) => DescribesExactlyItsMarks(item, path, d);
    case VarTuple(item) => DescribesExactlyItsMarks(item, path, d);
    case Tuple(args) => AllDescribeTheirMarks(args, path, d);
    case Mapping(_, value) => DescribesExactlyItsMarks(value, path, d);
    case Dataclass(fields) => FieldsDescribeTheirMarks(fields, path, d);
    case _ =>
  }

  ghost predicate SomeDue(args: seq<Annotation>, path: seq<string>, d: Descriptor) {
    exists i :: 0 <= i < |args| && Due(args[i], path, d)
  }

  lemma {:induction false} AllDescribeTheirMarks(args: seq<Annotation>, path: seq<string>, d: Descriptor)
    requires CompileAll(args, path).Some?
    ensures d in CompileAll(args, path).value.sensitive <==> SomeDue(args, path, d)
    decreases args
  {
    if args != [] {
      var n := |args| - 1;
      AllDescribeTheirMarks(args[..n], path, d);
      DescribesExactlyItsMarks(args[n], path, d);
      assert SomeDue(args, path, d) <==> SomeDue(args[..n], path, d) || Due(args[n], path, d) by {
        assert forall i :: 0 <= i < n ==> args[..n][i] == args[i];
        if i :| 0 <= i < n && Due(args[i], path, d) { assert Due(args[..n][i], path, d); }
      }
    }
  }

  ghost predicate FieldDue(f: Field, path: seq<string>, d: Descriptor) {
    Due(f.annotation, path + [f.name], d)
  }

  ghost predicate SomeFieldDue(fields: seq<Field>, path: seq<string>, d: Descriptor) {
    exists i :: 0 <= i < |fields| && FieldDue(fields[i], path, d)
  }

  lemma {:induction false} FieldsDescribeTheirMarks(fields: seq<Field>, path: seq<string>, d: Descriptor)
    requires CompileFields(fields, path).Some?
    ensures d in CompileFields(fields, path).value.sensitive <==> Due(Dataclass(fields), path, d)
    decreases fields, 1
  {
    FieldListDescribes(fields, path, d);
    if i :| 0 <= i < |fields| && FieldDue(fields[i], path, d) {
      BelowField(fields[i], path, d);
      assert CarriesMark(fields[i].annotation, d.path[|path|..][1..], d.mark);
    }
    if Due(Dataclass(fields), path, d) {
      var below := d.path[|path|..];
      var i :| 0 <= i < |fields| && fields[i].name == below[0] && CarriesMark(fields[i].annotation, below[1..], d.mark);
      BelowField(fields[i], path, d);
      assert FieldDue(fields[i], path, d);
    }
  }

  /** Below a field is below the object, with the field's name first. */
  lemma {:induction false} BelowField(f: Field, path: seq<string>, d: Descriptor)
    ensures path + [f.name] <= d.path <==> path <= d.path && |d.path| > |path| && d.path[|path|..][0] == f.name
    ensures path + [f.name] <= d.path ==> d.path[|path + [f.name]|..] == d.path[|path|..][1..]
  {
    if path + [f.name] <= d.path {
      assert d.path[|path|] == (path + [f.name])[|path|];
    }
  }

  lemma {:induction false} FieldListDescribes(fields: seq<Field>, path: seq<string>, d: Descriptor)
    requires CompileFields(fields, path).Some?
    ensures d in CompileFields(fields, path).value.sensitive <==> SomeFieldDue(fields, path, d)
    decreases fields, 0
  {
    if fields != [] {
      var n := |fields| - 1;
      FieldListDescribes(fields[..n], path, d);
      DescribesExactlyItsMarks(fields[n].annotation, path + [fields[n].name], d);
      assert SomeFieldDue(fields, path, d) <==> SomeFieldDue(fields[..n], path, d) || FieldDue(fields[n], path, d) by {
        assert forall i :: 0 <= i < n ==> fields[..n][i] == fields[i];
        if i :| 0 <= i < n && FieldDue(fields[i], path, d) { assert FieldDue(fields[..n][i], path, d); }
      }
    }
  }

  /** The same for a whole tool: what is described is exactly what the parameters
      other than the receiver carry, under their names. */
  lemma {:induction false} InputDescribesExactlyItsMarks(parameters: seq<Parameter>, title: string, d: Descriptor)
    requires InputSchema(parameters, title).Some?
    ensures d in InputSchema(parameters, title).value.sensitive
       <==> exists j :: 0 <= j < |parameters| && ParameterDue(parameters[j], d)
  {
    var fields := ArgumentFields(parameters).value;
    FieldListDescribes(fields, [], d);
    if i :| 0 <= i < |fields| && FieldDue(fields[i], [], d) {
      var j := ArgumentFieldAt(parameters, i);
      assert [] + [fields[i].name] == [parameters[j].name];
      assert ParameterDue(parameters[j], d);
    }
    if j :| 0 <= j < |parameters| && ParameterDue(parameters[j], d) {
      var i := ArgumentFieldFor(parameters, j);
      assert [] + [fields[i].name] == [parameters[j].name];
      assert FieldDue(fields[i], [], d);
    }
  }

  ghost predicate ParameterDue(p: Parameter, d: Descriptor) {
    !Receiver(p) && p.annotation.Some? && Due(p.annotation.value, [p.name], d)
  }
}
