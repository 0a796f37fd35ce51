/**
 JSON values as the planner sees them after parsing, and the two path operations of
 internal/channelconfig/raft.go: reading a value below a path of object fields, and
 rebuilding a document with the value below such a path replaced.

 A number keeps its literal (the source compares numbers with UseNumber); an object is a
 map because the source decodes objects into Go maps.
 */
module Json {
  import opened Wrappers

  datatype Json =
    | Null
    | Bool(flag: bool)
    | Number(literal: string)
    | Str(text: string)
    | Array(items: seq<Json>)
    | Object(fields: map<string, Json>)

  type Path = seq<string>

  datatype LookupProblem = NotAnObject(field: string) | Missing(field: string)

  /** The value below `path`; `null` counts as missing, at every step. */
  function Lookup(value: Json, path: Path): Result<Json, LookupProblem>
    decreases |path|
  {
    if path == [] then Ok(value)
    else match value
      case Object(fields) =>
        if path[0] in fields && fields[path[0]] != Null
        then Lookup(fields[path[0]], path[1..])
        else Err(Missing(path[0]))
      case Null => Err(Missing(path[0]))
      case _ => Err(NotAnObject(path[0]))
  }

  /** A walk down the document: one field after the other, through objects, and never onto a null. */
  ghost predicate Walk(value: Json, path: Path, found: Json, steps: seq<Json>) {
    |steps| == |path| + 1 && steps[0] == value && steps[|path|] == found &&
    forall i: nat :: i < |path| ==> Down(path, steps, i)
  }

  ghost predicate Down(path: Path, steps: seq<Json>, i: nat)
    requires i < |path| && i + 1 < |steps|
  {
    steps[i].Object? && path[i] in steps[i].fields && steps[i].fields[path[i]] == steps[i + 1] && steps[i + 1] != Null
  }

  /** A walk begins with its first step and goes on as a walk. */
  lemma WalkFrom(value: Json, path: Path, found: Json, steps: seq<Json>)
    requires path != [] && |steps| == |path| + 1
    ensures Walk(value, path, found, steps) <==>
      steps[0] == value && Down(path, steps, 0) && Walk(steps[1], path[1..], found, steps[1..])
  {
    if steps[0] == value && Down(path, steps, 0) && Walk(steps[1], path[1..], found, steps[1..]) {
      forall i: nat | i < |path|
        ensures Down(path, steps, i)
      {
        if i > 0 {
          assert Down(path[1..], steps[1..], i - 1);
        }
      }
    }
    if Walk(value, path, found, steps) {
      forall i: nat | i < |path| - 1
        ensures Down(path[1..], steps[1..], i)
      {
        assert Down(path, steps, i + 1);
      }
    }
  }

  /** A value is found exactly if there is a walk to it. */
  lemma {:induction false} FoundByWalk(value: Json, path: Path, found: Json)
    ensures Lookup(value, path) == Ok(found) <==> exists steps :: Walk(value, path, found, steps)
    decreases |path|
  {
    if path == [] {
      if value == found {
        assert Walk(value, path, found, [value]);
      }
      return;
    }
    if Lookup(value, path) == Ok(found) {
      var child := value.fields[path[0]];
      FoundByWalk(child, path[1..], found);
      var steps :| Walk(child, path[1..], found, steps);
      assert ([value] + steps)[1..] == steps;
      WalkFrom(value, path, found, [value] + steps);
    }
    forall steps | Walk(value, path, found, steps)
      ensures Lookup(value, path) == Ok(found)
    {
      WalkFrom(value, path, found, steps);
      FoundByWalk(steps[1], path[1..], found);
    }
  }

  /** The loop of raftJSONValue, which overwrites `raw` field by field. */
  method RaftJsonValue(value: Json, path: Path) returns (found: Result<Json, LookupProblem>)
    ensures found == Lookup(value, path)
  {
    var raw := value;
    var i := 0;
    while i < |path|
      invariant 0 <= i <= |path|
      invariant Lookup(value, path) == Lookup(raw, path[i..])
    {
      var field := path[i];
      assert path[i..][0] == field && path[i..][1..] == path[i + 1..];
      if raw != Null && !raw.Object? {
        return Err(NotAnObject(field));
      }
      if raw == Null || field !in raw.fields || raw.fields[field] == Null {
        return Err(Missing(field));
      }
      raw := raw.fields[field];
      i := i + 1;
    }
    return Ok(raw);
  }

  /** A replacement yields a document, a decoding error, or a write into a nil Go map. */
  datatype Replacement = Done(document: Json) | Undecodable | NilMapWrite

  /** replaceRaftJSONValue: `raw` is absent where a Go map lookup found no entry. */
  function Replace(raw: Option<Json>, path: Path, value: Json): Replacement
    decreases |path|
  {
    if path == [] then Done(value)
    else match raw
      case None => Undecodable
      case Some(Null) =>
        (match Replace(None, path[1..], value)
         case Done(_) => NilMapWrite
         case failed => failed)
      case Some(Object(fields)) =>
        var child := if path[0] in fields then Some(fields[path[0]]) else None;
        (match Replace(child, path[1..], value)
         case Done(updated) => Done(Object(fields[path[0] := updated]))
         case failed => failed)
      case Some(_) => Undecodable
  }

  /** Every proper prefix of `path` leads to an object, so that the last field can be set. */
  predicate Writable(value: Json, path: Path)
    decreases |path|
  {
    path == [] ||
    (value.Object? && (|path| == 1 || (path[0] in value.fields && Writable(value.fields[path[0]], path[1..]))))
  }

  /** The two documents are the same tree except for what lies at or below `path`. */
  ghost predicate AgreeOff(a: Json, b: Json, path: Path)
    decreases |path|
  {
    path == [] ||
    (a.Object? && b.Object? &&
     a.fields - {path[0]} == b.fields - {path[0]} &&
     (|path| == 1 ||
      (path[0] in a.fields && path[0] in b.fields &&
       AgreeOff(a.fields[path[0]], b.fields[path[0]], path[1..]))))
  }

  /** Neither path is a prefix of the other: they part at some common depth. */
  ghost predicate Diverge(p: Path, q: Path) {
    exists i :: 0 <= i < |p| && i < |q| && p[..i] == q[..i] && p[i] != q[i]
  }

  lemma {:induction false} DivergeTail(p: Path, q: Path)
    requires Diverge(p, q)
    ensures p != [] && q != []
    ensures p[0] == q[0] ==> Diverge(p[1..], q[1..])
  {
    var i :| 0 <= i < |p| && i < |q| && p[..i] == q[..i] && p[i] != q[i];
    if p[0] == q[0] {
      assert i > 0;
      assert p[1..][..i - 1] == p[..i][1..] == q[..i][1..] == q[1..][..i - 1];
      assert p[1..][i - 1] == p[i] && q[1..][i - 1] == q[i];
    }
  }

  /** Replacing succeeds exactly when every proper prefix of the path leads to an object. */
  lemma {:induction false} ReplaceSucceedsExactly(value: Json, path: Path, replacement: Json)
    ensures Replace(Some(value), path, replacement).Done? <==> Writable(value, path)
    decreases |path|
  {
    if path != [] && value.Object? && path[0] in value.fields {
      ReplaceSucceedsExactly(value.fields[path[0]], path[1..], replacement);
    }
  }

  /** Once the value has been read, writing below the same path can neither fail nor panic. */
  lemma {:induction false} ReadableIsWritable(value: Json, path: Path)
    requires Lookup(value, path).Ok?
    ensures Writable(value, path)
    decreases |path|
  {
    if path != [] {
      ReadableIsWritable(value.fields[path[0]], path[1..]);
    }
  }

  /** A replaced document holds the new value at the path and is otherwise the same tree. */
  lemma {:induction false} ReplaceEffect(value: Json, path: Path, replacement: Json)
    requires Writable(value, path) && replacement != Null
    ensures Replace(Some(value), path, replacement).Done?
    ensures var updated := Replace(Some(value), path, replacement).document;
            Lookup(updated, path) == Ok(replacement) && AgreeOff(value, updated, path) && updated != Null
    decreases |path|
  {
    ReplaceSucceedsExactly(value, path, replacement);
    if path != [] {
      if |path| == 1 {
        assert path[1..] == [];
      } else {
        ReplaceEffect(value.fields[path[0]], path[1..], replacement);
      }
    }
  }

  lemma UpdateRestored(a: map<string, Json>, b: map<string, Json>, key: string)
    requires a - {key} == b - {key} && key in b
    ensures b == a[key := b[key]]
  {
    forall k <- b.Keys + a.Keys
      ensures k in b <==> k in a[key := b[key]]
      ensures k in b ==> b[k] == a[key := b[key]][k]
    {
      assert k != key ==> (k in a - {key} <==> k in b - {key});
    }
  }

  /** Replacing is the only way to agree off the path and hold the given value at it. */
  lemma {:induction false} ReplaceUnique(a: Json, b: Json, path: Path, value: Json)
    requires AgreeOff(a, b, path) && Lookup(b, path) == Ok(value)
    ensures Replace(Some(a), path, value) == Done(b)
    decreases |path|
  {
    if path != [] {
      UpdateRestored(a.fields, b.fields, path[0]);
      if |path| == 1 {
        assert path[1..] == [];
      } else {
        ReplaceUnique(a.fields[path[0]], b.fields[path[0]], path[1..], value);
      }
    }
  }

  /** Documents that agree off a path answer every lookup that leaves that path alike. */
  lemma {:induction false} LookupOffPath(a: Json, b: Json, path: Path, other: Path)
    requires AgreeOff(a, b, path) && Diverge(path, other)
    ensures Lookup(a, other) == Lookup(b, other)
    decreases |path|
  {
    DivergeTail(path, other);
    var field := other[0];
    if field == path[0] {
      assert path[1..] != [] by { DivergeTail(path[1..], other[1..]); }
      LookupOffPath(a.fields[field], b.fields[field], path[1..], other[1..]);
    } else {
      assert field in a.fields - {path[0]} <==> field in b.fields - {path[0]};
    }
  }

  /** A lookup along a longer path continues from the value at the shorter one. */
  lemma {:induction false} LookupConcat(value: Json, p: Path, q: Path)
    requires Lookup(value, p).Ok?
    ensures Lookup(value, p + q) == Lookup(Lookup(value, p).value, q)
    decreases |p|
  {
    if p == [] {
      assert p + q == q;
    } else {
      assert (p + q)[0] == p[0] && (p + q)[1..] == p[1..] + q;
      LookupConcat(value.fields[p[0]], p[1..], q);
    }
  }

  /** A readable path has readable prefixes. */
  lemma {:induction false} LookupPrefix(value: Json, p: Path, q: Path)
    requires Lookup(value, p + q).Ok?
    ensures Lookup(value, p).Ok?
    decreases |p|
  {
    if p != [] {
      assert (p + q)[0] == p[0] && (p + q)[1..] == p[1..] + q;
      LookupPrefix(value.fields[p[0]], p[1..], q);
    }
  }

  lemma {:induction false} AgreeOffReflexive(a: Json, path: Path)
    requires Lookup(a, path).Ok?
    ensures AgreeOff(a, a, path)
    decreases |path|
  {
    if path != [] {
      AgreeOffReflexive(a.fields[path[0]], path[1..]);
    }
  }

  /** Documents that agree off p + q hold, below p, values that agree off q. */
  lemma {:induction false} AgreeOffDescend(a: Json, b: Json, p: Path, q: Path)
    requires AgreeOff(a, b, p + q) && q != [] && Lookup(a, p).Ok?
    ensures Lookup(b, p).Ok? && AgreeOff(Lookup(a, p).value, Lookup(b, p).value, q)
    decreases |p|
  {
    if p == [] {
      assert p + q == q;
    } else {
      assert (p + q)[0] == p[0] && (p + q)[1..] == p[1..] + q;
      AgreeOffDescend(a.fields[p[0]], b.fields[p[0]], p[1..], q);
    }
  }
}
