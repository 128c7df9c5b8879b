/** Rewriting the duration strings of a config section, on parsed JSON trees. */
module AppConfig {
  import opened Common
  import opened Splitting

  /** Other stands for null, booleans, arrays and numbers that are not integers. */
  datatype Json = Text(text: string) | Number(n: int) | Object(fields: map<string, Json>) | Other(raw: string)

  type Path = seq<string>

  /** time.ParseDuration, in nanoseconds. */
  type Parser = string -> Option<int>

  // ----- the code -----

  function RewriteDuration(parse: Parser, v: Json): Option<Json> {
    if !v.Text? then Some(v)
    else
      match parse(v.text)
      case Some(d) => Some(Number(d))
      case None => None
  }

  function NormalizePath(parse: Parser, v: Json, path: Path): Option<Json> {
    if path == [] then RewriteDuration(parse, v)
    else if !v.Object? || path[0] !in v.fields then Some(v)
    else
      var child := v.fields[path[0]];
      match NormalizePath(parse, child, path[1..])
      case None => None
      case Some(replaced) => Some(if replaced == child then v else Object(v.fields[path[0] := replaced]))
  }

  // ----- what it is for -----

  /** The value a path leads to. */
  function At(v: Json, path: Path): Option<Json> {
    if path == [] then Some(v)
    else if !v.Object? || path[0] !in v.fields then None
    else At(v.fields[path[0]], path[1..])
  }

  /** A string that is no duration where a duration is wanted. */
  predicate BadAt(parse: Parser, v: Json, path: Path) {
    var x := At(v, path);
    x.Some? && x.value.Text? && parse(x.value.text).None?
  }

  ghost predicate Bad(parse: Parser, v: Json, paths: set<Path>) {
    exists p :: p in paths && BadAt(parse, v, p)
  }

  ghost function Below(paths: set<Path>, key: string): (r: set<Path>)
    ensures forall q :: q in r <==> [key] + q in paths
  {
    var r := set p | p in paths && p != [] && p[0] == key :: p[1..];
    assert forall q :: [key] + q in paths ==> ([key] + q)[1..] == q && q in r;
    assert forall p :: p in paths && p != [] && p[0] == key ==> [key] + p[1..] == p;
    r
  }

  /** All the paths at once: every good string at one of them becomes a number. */
  ghost function Rewrite(parse: Parser, v: Json, paths: set<Path>): Json
    decreases v
  {
    match v
    case Text(s) => if [] in paths && parse(s).Some? then Number(parse(s).value) else v
    case Object(fields) => Object(map k | k in fields :: Rewrite(parse, fields[k], Below(paths, k)))
    case _ => v
  }

  ghost function Normalized(parse: Parser, v: Json, paths: set<Path>): Option<Json> {
    if Bad(parse, v, paths) then None else Some(Rewrite(parse, v, paths))
  }

  // ----- one path at a time -----

  lemma {:induction false} NothingToRewrite(parse: Parser, v: Json)
    ensures Rewrite(parse, v, {}) == v
    decreases v
  {
    if v.Object? {
      forall k | k in v.fields ensures Rewrite(parse, v.fields[k], Below({}, k)) == v.fields[k] {
        assert Below({}, k) == {};
        NothingToRewrite(parse, v.fields[k]);
      }
    }
  }

  lemma {:induction false} OnePath(parse: Parser, v: Json, path: Path)
    ensures NormalizePath(parse, v, path)
            == if BadAt(parse, v, path) then None else Some(Rewrite(parse, v, {path}))
    decreases path
  {
    if v.Object? {
      forall k | k in v.fields && (path == [] || k != path[0])
        ensures Rewrite(parse, v.fields[k], Below({path}, k)) == v.fields[k]
      {
        assert Below({path}, k) == {};
        NothingToRewrite(parse, v.fields[k]);
      }
      if path != [] && path[0] in v.fields {
        assert forall q :: [path[0]] + q == path ==> q == path[1..];
        assert [path[0]] + path[1..] == path;
        assert Below({path}, path[0]) == {path[1..]};
        OnePath(parse, v.fields[path[0]], path[1..]);
        if !BadAt(parse, v, path) {
          var replaced := Rewrite(parse, v.fields[path[0]], {path[1..]});
          assert Rewrite(parse, v, {path}).fields == v.fields[path[0] := replaced];
          assert v.fields[path[0] := v.fields[path[0]]] == v.fields;
        }
      } else {
        assert Rewrite(parse, v, {path}).fields == v.fields;
      }
    }
  }

  lemma {:induction false} RewriteTwice(parse: Parser, v: Json, first: set<Path>, second: set<Path>)
    ensures Rewrite(parse, Rewrite(parse, v, first), second) == Rewrite(parse, v, first + second)
    decreases v
  {
    if v.Object? {
      forall k | k in v.fields
        ensures Rewrite(parse, Rewrite(parse, v.fields[k], Below(first, k)), Below(second, k))
                == Rewrite(parse, v.fields[k], Below(first + second, k))
      {
        assert Below(first + second, k) == Below(first, k) + Below(second, k);
        RewriteTwice(parse, v.fields[k], Below(first, k), Below(second, k));
      }
    }
  }

  /** What stands at a path afterwards: objects stay, keys stay, and a string is
      replaced exactly when the path is one of those named and the string parses. */
  lemma {:induction false} WhatBecomesOf(parse: Parser, v: Json, paths: set<Path>, q: Path)
    ensures At(v, q).None? <==> At(Rewrite(parse, v, paths), q).None?
    ensures At(v, q).Some? && !At(v, q).value.Object?
            ==> At(Rewrite(parse, v, paths), q)
                == Some(if q in paths && At(v, q).value.Text? && parse(At(v, q).value.text).Some?
                        then Number(parse(At(v, q).value.text).value)
                        else At(v, q).value)
    ensures At(v, q).Some? && At(v, q).value.Object?
            ==> At(Rewrite(parse, v, paths), q).value.Object?
    decreases q
  {
    if q != [] && v.Object? && q[0] in v.fields {
      assert [q[0]] + q[1..] == q;
      WhatBecomesOf(parse, v.fields[q[0]], Below(paths, q[0]), q[1..]);
    }
  }

  /** What the paths still ask for once q has been walked. */
  ghost function Beyond(paths: set<Path>, q: Path): (r: set<Path>)
    ensures forall p :: p in r <==> q + p in paths
    decreases q
  {
    if q == [] then
      assert forall p: Path {:trigger [] + p} :: [] + p == p;
      paths
    else
      assert forall p: Path {:trigger q + p} :: [q[0]] + (q[1..] + p) == q + p;
      Beyond(Below(paths, q[0]), q[1..])
  }

  lemma {:induction false} SubtreeAt(parse: Parser, v: Json, paths: set<Path>, q: Path)
    requires At(v, q).Some?
    ensures At(Rewrite(parse, v, paths), q) == Some(Rewrite(parse, At(v, q).value, Beyond(paths, q)))
    decreases q
  {
    if q != [] {
      SubtreeAt(parse, v.fields[q[0]], Below(paths, q[0]), q[1..]);
    }
  }

  /** A subtree no named path runs into is the same tree afterwards. */
  lemma OffThePaths(parse: Parser, v: Json, paths: set<Path>, q: Path)
    requires forall p :: q + p !in paths
    ensures At(Rewrite(parse, v, paths), q) == At(v, q)
  {
    if At(v, q).Some? {
      assert Beyond(paths, q) == {};
      SubtreeAt(parse, v, paths, q);
      NothingToRewrite(parse, At(v, q).value);
    } else {
      WhatBecomesOf(parse, v, paths, q);
    }
  }

  lemma BadStaysBad(parse: Parser, v: Json, paths: set<Path>, q: Path)
    ensures BadAt(parse, Rewrite(parse, v, paths), q) <==> BadAt(parse, v, q)
  {
    WhatBecomesOf(parse, v, paths, q);
  }

  // ----- any order -----

  /** The loop of normalizeDurations over one particular order; a failure names the
      path it stopped at. */
  function NormalizeInOrder(parse: Parser, v: Json, order: seq<Path>): Result<Json, Path>
    decreases |order|
  {
    if order == [] then Ok(v)
    else
      match NormalizePath(parse, v, order[0])
      case None => Err(order[0])
      case Some(w) => NormalizeInOrder(parse, w, order[1..])
  }

  function Outcome(r: Result<Json, Path>): Option<Json> {
    if r.Ok? then Some(r.value) else None
  }

  ghost function Visited(order: seq<Path>): set<Path> {
    set i | 0 <= i < |order| :: order[i]
  }

  /** Whatever the order and however often a path comes up, the outcome is that of
      all the paths at once. */
  lemma {:induction false} OrderDoesNotMatter(parse: Parser, v: Json, order: seq<Path>)
    ensures Outcome(NormalizeInOrder(parse, v, order)) == Normalized(parse, v, Visited(order))
    decreases order
  {
    if order == [] {
      assert Visited(order) == {};
      NothingToRewrite(parse, v);
    } else {
      var p := order[0];
      assert Visited(order) == {p} + Visited(order[1..]) by {
        VisitedHead(order);
      }
      OnePath(parse, v, p);
      if !BadAt(parse, v, p) {
        var w := Rewrite(parse, v, {p});
        OrderDoesNotMatter(parse, w, order[1..]);
        RewriteTwice(parse, v, {p}, Visited(order[1..]));
        forall q ensures BadAt(parse, w, q) <==> BadAt(parse, v, q) {
          BadStaysBad(parse, v, {p}, q);
        }
      }
    }
  }

  lemma VisitedHead(order: seq<Path>)
    requires order != []
    ensures Visited(order) == {order[0]} + Visited(order[1..])
  {
    var rest := order[1..];
    forall p | p in Visited(order) ensures p in {order[0]} + Visited(rest) {
      var i :| 0 <= i < |order| && order[i] == p;
      if i > 0 {
        assert rest[i - 1] == p;
      }
    }
    forall p | p in Visited(rest) ensures p in Visited(order) {
      var i :| 0 <= i < |rest| && rest[i] == p;
      assert order[i + 1] == p;
    }
  }

  /** Two visiting orders of the same paths agree on success and on the tree. */
  lemma Confluent(parse: Parser, v: Json, one: seq<Path>, other: seq<Path>)
    requires Visited(one) == Visited(other)
    ensures Outcome(NormalizeInOrder(parse, v, one)) == Outcome(NormalizeInOrder(parse, v, other))
  {
    OrderDoesNotMatter(parse, v, one);
    OrderDoesNotMatter(parse, v, other);
  }

  /** What they need not agree on is which of two faults is reported. */
  lemma TheNameReportedDependsOnTheOrder(parse: Parser, a: string, b: string, s: string)
    requires a != b && parse(s).None?
    ensures var v := Object(map[a := Text(s), b := Text(s)]);
            NormalizeInOrder(parse, v, [[a], [b]]) == Err([a]) && NormalizeInOrder(parse, v, [[b], [a]]) == Err([b])
  {
    var v := Object(map[a := Text(s), b := Text(s)]);
    assert NormalizePath(parse, v, [a]) == NormalizePath(parse, v.fields[a], []) == None;
    assert NormalizePath(parse, v, [b]) == NormalizePath(parse, v.fields[b], []) == None;
  }

  /** Normalising the result again, in any order, changes nothing. */
  lemma Idempotent(parse: Parser, v: Json, one: seq<Path>, other: seq<Path>)
    requires Visited(one) == Visited(other) && NormalizeInOrder(parse, v, one).Ok?
    ensures NormalizeInOrder(parse, NormalizeInOrder(parse, v, one).value, other) == NormalizeInOrder(parse, v, one)
  {
    var paths := Visited(one);
    var w := Rewrite(parse, v, paths);
    OrderDoesNotMatter(parse, v, one);
    OrderDoesNotMatter(parse, w, other);
    RewriteTwice(parse, v, paths, paths);
    assert paths + paths == paths;
    forall q ensures BadAt(parse, w, q) <==> BadAt(parse, v, q) {
      BadStaysBad(parse, v, paths, q);
    }
  }

  /** After success no string is left where a duration is wanted. */
  lemma NoStringLeft(parse: Parser, v: Json, order: seq<Path>, q: Path)
    requires q in Visited(order) && NormalizeInOrder(parse, v, order).Ok?
    ensures var x := At(NormalizeInOrder(parse, v, order).value, q); x.Some? ==> !x.value.Text?
  {
    OrderDoesNotMatter(parse, v, order);
    WhatBecomesOf(parse, v, Visited(order), q);
    assert !BadAt(parse, v, q);
  }

  /** The range over Go's map: the next path is any of those left. On failure the
      name reported is the last segment of some path that is at fault. */
  method NormalizeDurations(parse: Parser, v: Json, keys: set<string>) returns (r: Result<Json, string>)
    ensures r.Ok? ==> Normalized(parse, v, Paths(keys)) == Some(r.value)
    ensures r.Err? ==> exists k :: k in keys && BadAt(parse, v, Split(k, '.')) && EndsWith(k, r.error)
  {
    var raw := v;
    var todo := keys;
    ghost var done: set<string> := {};
    NothingToRewrite(parse, v);
    assert Paths({}) == {};
    while todo != {}
      invariant done + todo == keys
      invariant raw == Rewrite(parse, v, Paths(done))
      invariant forall k :: k in done ==> !BadAt(parse, v, Split(k, '.'))
      decreases |todo|
    {
      var key :| key in todo;
      var segments := Split(key, '.');
      OnePath(parse, raw, segments);
      BadStaysBad(parse, v, Paths(done), segments);
      match NormalizePath(parse, raw, segments) {
        case None =>
          LastSegment(key);
          return Err(LastOf(segments));
        case Some(normalized) =>
          RewriteTwice(parse, v, Paths(done), {segments});
          assert Paths(done + {key}) == Paths(done) + {segments};
          raw := normalized;
          done := done + {key};
          todo := todo - {key};
      }
    }
    assert done == keys;
    r := Ok(raw);
  }

  ghost function Paths(keys: set<string>): set<Path> {
    set k | k in keys :: Split(k, '.')
  }

  /** The name is what follows the last dot of the key, the whole key where there is
      none. */
  ghost predicate EndsWith(key: string, name: string) {
    Without(name, '.') && (key == name || exists before: string :: key == before + "." + name)
  }

  lemma LastSegment(key: string)
    ensures EndsWith(key, LastOf(Split(key, '.')))
  {
    JoinSplit(key, '.');
    SplitPieces(key, '.');
    LastOfJoin(Split(key, '.'));
  }

  lemma {:induction false} LastOfJoin(parts: seq<string>)
    requires parts != []
    ensures Join(parts, '.') == LastOf(parts) || exists before: string :: Join(parts, '.') == before + "." + LastOf(parts)
  {
    if |parts| > 1 {
      LastOfJoin(parts[1..]);
      if Join(parts[1..], '.') == LastOf(parts) {
        assert Join(parts, '.') == parts[0] + "." + LastOf(parts);
      } else {
        var before: string :| Join(parts[1..], '.') == before + "." + LastOf(parts);
        assert Join(parts, '.') == (parts[0] + "." + before) + "." + LastOf(parts);
      }
    }
  }

  function LastOf(segments: Path): string
    requires segments != []
  {
    segments[|segments| - 1]
  }
}
