/** Which paths of a config struct name a duration. */
module DurationKeys {
  import opened Common
  import opened Splitting
  import opened AppConfig

  datatype Type = Duration | Pointer(elem: Type) | Struct(fields: seq<Field>) | Basic(name: string)

  /** tag is the whole value of the json tag, "" when there is none. */
  datatype Field = Field(name: string, tag: string, exported: bool, embedded: bool, typ: Type)

  /** The tag up to its first comma. */
  function TagName(tag: string): string {
    Split(tag, ',')[0]
  }

  /** The name is what stands before the first comma, the whole tag where there is none. */
  lemma TagNameEndsAtComma(name: string, options: string)
    requires Without(name, ',')
    ensures TagName(name) == name && TagName(name + "," + options) == name
  {
    SplitLast(name, ',');
    SplitFirst(name, options, ',');
  }

  function Deref(t: Type): Type {
    if t.Pointer? then t.elem else t
  }

  function KeyName(f: Field): string {
    if TagName(f.tag) == "" then f.name else TagName(f.tag)
  }

  // ----- which paths are durations -----

  /** Following a path of JSON names through a type leads to a duration field. */
  ghost predicate Declares(t: Type, path: Path)
    decreases t, 1
  {
    Deref(t).Struct? && exists i :: 0 <= i < |Deref(t).fields| && FieldDeclares(Deref(t).fields[i], path)
  }

  /** An unexported field declares nothing; an embedded struct without a name of its
      own lends its fields; any other is reached under its name. */
  ghost predicate FieldDeclares(f: Field, path: Path)
    decreases f, 0
  {
    f.exported
    && if TagName(f.tag) == "" && f.embedded then Declares(f.typ, path)
       else
         && TagName(f.tag) != "-"
         && path != []
         && path[0] == KeyName(f)
         && (if Deref(f.typ) == Duration then |path| == 1 else Declares(f.typ, path[1..]))
  }

  ghost predicate Key(t: Type, key: string) {
    exists path :: path != [] && Declares(t, path) && Join(path, '.') == key
  }

  ghost predicate FieldKey(f: Field, key: string) {
    exists path :: path != [] && FieldDeclares(f, path) && Join(path, '.') == key
  }

  lemma {:induction false} DeclaredPathsAreNotEmpty(t: Type, path: Path)
    requires Declares(t, path)
    ensures path != []
    decreases t
  {
    var i :| 0 <= i < |Deref(t).fields| && FieldDeclares(Deref(t).fields[i], path);
    var f := Deref(t).fields[i];
    if TagName(f.tag) == "" && f.embedded {
      DeclaredPathsAreNotEmpty(f.typ, path);
    }
  }

  // ----- the walk -----

  /** durationKeys: the keys are exactly the declared paths, joined by dots. */
  method DurationKeys(t: Type) returns (keys: set<string>)
    ensures forall key :: key in keys <==> Key(t, key)
    decreases t, 1
  {
    keys := {};
    var s := Deref(t);
    if !s.Struct? {
      return;
    }
    for i := 0 to |s.fields|
      invariant forall key :: key in keys <==> exists j :: 0 <= j < i && FieldKey(s.fields[j], key)
    {
      ghost var before := keys;
      var more := FieldKeys(s.fields[i]);
      keys := keys + more;
      forall key ensures key in keys <==> exists j :: 0 <= j < i + 1 && FieldKey(s.fields[j], key) {
        if key in more {
          assert FieldKey(s.fields[i], key);
        }
        if j :| 0 <= j < i + 1 && FieldKey(s.fields[j], key) {
          assert j < i ==> key in before;
        }
      }
    }
    forall key ensures key in keys <==> Key(t, key) {
      KeyByField(t, key);
    }
  }

  lemma KeyByField(t: Type, key: string)
    requires Deref(t).Struct?
    ensures Key(t, key) <==> exists j :: 0 <= j < |Deref(t).fields| && FieldKey(Deref(t).fields[j], key)
  {
    var fields := Deref(t).fields;
    if Key(t, key) {
      var path :| path != [] && Declares(t, path) && Join(path, '.') == key;
      var j :| 0 <= j < |fields| && FieldDeclares(fields[j], path);
      assert FieldKey(fields[j], key);
    }
    if j :| 0 <= j < |fields| && FieldKey(fields[j], key) {
      var path :| path != [] && FieldDeclares(fields[j], path) && Join(path, '.') == key;
      assert Declares(t, path);
    }
  }

  /** One turn of the loop over the fields. */
  method FieldKeys(f: Field) returns (keys: set<string>)
    ensures forall key :: key in keys <==> FieldKey(f, key)
    decreases f, 0
  {
    keys := {};
    if !f.exported {
      return;
    }
    var name := TagName(f.tag);
    if name == "" && f.embedded {
      keys := DurationKeys(f.typ);
      assert forall path :: FieldDeclares(f, path) <==> Declares(f.typ, path);
      return;
    }
    if name == "-" {
      return;
    }
    if name == "" {
      name := f.name;
    }
    if f.typ == Duration || f.typ == Pointer(Duration) {
      keys := {name};
      LeafKey(f, name);
    } else if Deref(f.typ).Struct? {
      var nested := DurationKeys(f.typ);
      keys := set k | k in nested :: name + "." + k;
      forall key ensures key in keys <==> FieldKey(f, key) {
        NestedKey(f, name, nested, key);
      }
    } else {
      assert forall path :: !FieldDeclares(f, path);
    }
  }

  lemma LeafKey(f: Field, name: string)
    requires f.exported && !(TagName(f.tag) == "" && f.embedded) && TagName(f.tag) != "-" && name == KeyName(f)
    requires Deref(f.typ) == Duration
    ensures forall key :: FieldKey(f, key) <==> key == name
  {
    assert FieldDeclares(f, [name]) && Join([name], '.') == name;
    forall path | FieldDeclares(f, path) ensures path == [name] {
      assert path == [path[0]];
    }
  }

  lemma NestedKey(f: Field, name: string, nested: set<string>, key: string)
    requires f.exported && !(TagName(f.tag) == "" && f.embedded) && TagName(f.tag) != "-" && name == KeyName(f)
    requires Deref(f.typ).Struct? && forall k :: k in nested <==> Key(f.typ, k)
    ensures (exists k :: k in nested && name + "." + k == key) <==> FieldKey(f, key)
  {
    if k :| k in nested && name + "." + k == key {
      var path :| path != [] && Declares(f.typ, path) && Join(path, '.') == k;
      assert ([name] + path)[1..] == path;
      assert FieldDeclares(f, [name] + path);
      assert Join([name] + path, '.') == key;
    }
    if FieldKey(f, key) {
      var path :| path != [] && FieldDeclares(f, path) && Join(path, '.') == key;
      DeclaredPathsAreNotEmpty(f.typ, path[1..]);
      assert Key(f.typ, Join(path[1..], '.'));
      assert Join(path[1..], '.') in nested;
    }
  }

  /** One pointer is looked through, not two. */
  lemma PointersToDurations(name: string, key: string)
    requires name != "" && name != "-"
    ensures FieldKey(Field(name, "", true, false, Duration), key) <==> key == name
    ensures FieldKey(Field(name, "", true, false, Pointer(Duration)), key) <==> key == name
    ensures !FieldKey(Field(name, "", true, false, Pointer(Pointer(Duration))), key)
  {
    TagNameEndsAtComma("", "");
    LeafKey(Field(name, "", true, false, Duration), name);
    LeafKey(Field(name, "", true, false, Pointer(Duration)), name);
    assert forall path :: !FieldDeclares(Field(name, "", true, false, Pointer(Pointer(Duration))), path);
  }

  /** What a field is called: by its tag up to the comma, else by its own name; and one
      that is unexported or tagged with a dash is not there. */
  lemma NamesOfFields(f: Field, name: string, options: string, key: string)
    requires Without(name, ',') && f.typ == Duration
    ensures f.exported && name != "" && name != "-" && (f.tag == name || f.tag == name + "," + options) ==>
              (FieldKey(f, key) <==> key == name)
    ensures f.exported && !f.embedded && (f.tag == "" || f.tag == "," + options) ==> (FieldKey(f, key) <==> key == f.name)
    ensures !f.exported || f.tag == "-" ==> !FieldKey(f, key)
  {
    TagNameEndsAtComma(name, options);
    TagNameEndsAtComma("", options);
    TagNameEndsAtComma("-", options);
    assert "" + "," + options == "," + options;
    if f.exported && TagName(f.tag) != "-" && !(TagName(f.tag) == "" && f.embedded) {
      LeafKey(f, KeyName(f));
    }
  }

  /** An embedded struct without a tag lends its keys, and a nested one puts its name and
      a dot before them. */
  lemma KeysOfStructs(f: Field, fields: seq<Field>, key: string)
    requires f.exported && f.typ == Struct(fields) && f.tag == ""
    ensures f.embedded ==> (FieldKey(f, key) <==> Key(f.typ, key))
    ensures !f.embedded ==> (FieldKey(f, key) <==> exists k :: Key(f.typ, k) && key == f.name + "." + k)
  {
    TagNameEndsAtComma("", "");
    if f.embedded {
      assert forall path :: FieldDeclares(f, path) <==> Declares(f.typ, path);
    } else if k :| Key(f.typ, k) && key == f.name + "." + k {
      var path :| path != [] && Declares(f.typ, path) && Join(path, '.') == k;
      assert ([f.name] + path)[1..] == path;
      assert FieldDeclares(f, [f.name] + path) && Join([f.name] + path, '.') == key;
    } else if FieldKey(f, key) {
      var path :| path != [] && FieldDeclares(f, path) && Join(path, '.') == key;
      DeclaredPathsAreNotEmpty(f.typ, path[1..]);
      assert Key(f.typ, Join(path[1..], '.'));
    }
  }

  // ----- a whole section -----

  ghost predicate DotFree(t: Type) {
    forall path :: Declares(t, path) ==> AllWithout(path, '.')
  }

  /** Splitting the dotted keys gives every declared path back exactly when no name
      on the way holds a dot; and then it gives nothing else. */
  lemma SegmentsAreThePaths(t: Type, keys: set<string>)
    requires forall key :: key in keys <==> Key(t, key)
    ensures DotFree(t) <==> forall path :: Declares(t, path) ==> path in Paths(keys)
    ensures DotFree(t) ==> forall path :: path in Paths(keys) ==> Declares(t, path)
  {
    forall path | Declares(t, path) && AllWithout(path, '.') ensures path in Paths(keys) {
      DeclaredPathsAreNotEmpty(t, path);
      SplitJoin(path, '.');
      assert Key(t, Join(path, '.'));
    }
    forall path | path in Paths(keys) ensures AllWithout(path, '.') && (DotFree(t) ==> Declares(t, path)) {
      var key :| key in keys && Split(key, '.') == path;
      SplitPieces(key, '.');
      assert Key(t, key);
      var declared :| declared != [] && Declares(t, declared) && Join(declared, '.') == key;
      if DotFree(t) {
        SplitJoin(declared, '.');
      }
    }
  }

  predicate LeafAt(v: Json, path: Path) {
    At(v, path).Some? && !At(v, path).value.Object?
  }

  /** The rewriting done before a section is decoded into a struct of type t: it
      fails exactly when some duration field is given a string that is none, and
      otherwise leaves no string at such a field and everything else as it was. */
  method Section(parse: Parser, t: Type, v: Json) returns (r: Result<Json, string>)
    ensures DotFree(t) ==> (r.Err? <==> exists path :: Declares(t, path) && BadAt(parse, v, path))
    ensures DotFree(t) && r.Ok? ==>
              forall path :: Declares(t, path) && LeafAt(v, path)
                             ==> At(r.value, path) == RewriteDuration(parse, At(v, path).value)
    ensures DotFree(t) && r.Ok? ==>
              forall q :: (forall p :: !Declares(t, q + p)) ==> At(r.value, q) == At(v, q)
  {
    var keys := DurationKeys(t);
    SegmentsAreThePaths(t, keys);
    r := NormalizeDurations(parse, v, keys);
    if DotFree(t) && r.Ok? {
      forall path | Declares(t, path) && LeafAt(v, path)
        ensures At(r.value, path) == RewriteDuration(parse, At(v, path).value)
      {
        assert path in Paths(keys) && !BadAt(parse, v, path);
        WhatBecomesOf(parse, v, Paths(keys), path);
      }
      forall q | forall p :: !Declares(t, q + p) ensures At(r.value, q) == At(v, q) {
        assert forall p :: Declares(t, q + p) <==> q + p in Paths(keys);
        OffThePaths(parse, v, Paths(keys), q);
      }
    }
  }
}
