/**
 JSON merge patches and the check that no two of them write the same place.

 First what the operations mean, then the laws they obey, then the operations as the program
 performs them. The order in which object keys are visited is arbitrary throughout.
 */
module MergePatch {
  import opened Json
  import opened Prelude

  type Path = seq<string>

  datatype NamedPatch = NamedPatch(option: string, patch: Fields)

  // -------------------------------------------------------------------------
  // Meaning
  // -------------------------------------------------------------------------

  /** The object a patch member is merged into: the target's own if it has one, else an empty one. */
  function Base(target: Fields, key: string): Fields {
    if key in target && target[key].Object? then target[key].fields else map[]
  }

  /** What `mergeObject` computes. */
  function Merged(target: Fields, patch: Fields): Fields
    decreases Object(patch)
  {
    map key | key in target.Keys + patch.Keys && !(key in patch && patch[key].Null?) ::
      if key !in patch then target[key]
      else if patch[key].Object? then Object(Merged(Base(target, key), patch[key].fields))
      else patch[key]
  }

  /** A member that is written as a whole; only a non-empty object is entered. */
  predicate IsLeaf(value: Json) {
    !(value.Object? && value.fields != map[])
  }

  /** The paths `collectWrittenPaths` lists. */
  predicate Writes(patch: Fields, path: Path)
    decreases |path|
  {
    && path != [] && path[0] in patch
    && if IsLeaf(patch[path[0]]) then |path| == 1 else Writes(patch[path[0]].fields, path[1..])
  }

  /** One of the paths begins the other. */
  predicate Overlap(left: Path, right: Path) {
    left <= right || right <= left
  }

  ghost predicate Disjoint(p: Fields, q: Fields) {
    forall a, b :: Writes(p, a) && Writes(q, b) ==> !Overlap(a, b)
  }

  ghost predicate Compatible(patches: seq<NamedPatch>) {
    forall i, j :: 0 <= i < j < |patches| ==> Disjoint(patches[i].patch, patches[j].patch)
  }

  function Applied(body: Fields, patches: seq<NamedPatch>): Fields
    decreases |patches|
  {
    if patches == [] then body else Applied(Merged(body, patches[0].patch), patches[1..])
  }

  // -------------------------------------------------------------------------
  // Written paths
  // -------------------------------------------------------------------------

  lemma OverlapSteps(left: Path, right: Path)
    requires left != [] && right != []
    ensures Overlap(left, right) <==> left[0] == right[0] && Overlap(left[1..], right[1..])
  {
    if left[0] == right[0] {
      assert left == [left[0]] + left[1..] && right == [right[0]] + right[1..];
    }
  }

  /** No written path begins another. */
  lemma {:induction false} WrittenPathsAreAntichain(patch: Fields, a: Path, b: Path)
    requires Writes(patch, a) && Writes(patch, b) && Overlap(a, b)
    ensures a == b
    decreases |a|
  {
    OverlapSteps(a, b);
    assert a == [a[0]] + a[1..] && b == [b[0]] + b[1..];
    if !IsLeaf(patch[a[0]]) {
      WrittenPathsAreAntichain(patch[a[0]].fields, a[1..], b[1..]);
    }
  }

  /** Every member of a patch has a written path. */
  lemma {:induction false} SomePath(patch: Fields, key: string) returns (path: Path)
    requires key in patch
    ensures Writes(patch, path) && path[0] == key
    decreases patch[key]
  {
    if IsLeaf(patch[key]) {
      path := [key];
    } else {
      var inner := patch[key].fields;
      var next :| next in inner;
      var rest := SomePath(inner, next);
      path := [key] + rest;
      assert path[1..] == rest;
    }
  }

  /** The same without paths: where both patches have a member, both enter it, and stay apart inside. */
  ghost predicate Apart(p: Fields, q: Fields)
    decreases Object(p)
  {
    forall key :: key in p && key in q ==>
      && !IsLeaf(p[key]) && !IsLeaf(q[key])
      && Apart(p[key].fields, q[key].fields)
  }

  lemma {:induction false} ApartIsDisjoint(p: Fields, q: Fields, a: Path, b: Path)
    requires Apart(p, q) && Writes(p, a) && Writes(q, b)
    ensures !Overlap(a, b)
    decreases |a|
  {
    OverlapSteps(a, b);
    if a[0] == b[0] {
      ApartIsDisjoint(p[a[0]].fields, q[b[0]].fields, a[1..], b[1..]);
    }
  }

  lemma {:induction false} DisjointIsApart(p: Fields, q: Fields)
    requires Disjoint(p, q)
    ensures Apart(p, q)
    decreases Object(p)
  {
    forall key | key in p && key in q
      ensures !IsLeaf(p[key]) && !IsLeaf(q[key]) && Apart(p[key].fields, q[key].fields)
    {
      var a := SomePath(p, key);
      var b := SomePath(q, key);
      OverlapSteps(a, b);
      assert !Overlap(a, b);
      assert !IsLeaf(p[key]) && !IsLeaf(q[key]);
      var p', q' := p[key].fields, q[key].fields;
      forall c, d | Writes(p', c) && Writes(q', d) ensures !Overlap(c, d) {
        var c', d' := [key] + c, [key] + d;
        assert c'[1..] == c && d'[1..] == d;
        assert Writes(p, c') && Writes(q, d');
        OverlapSteps(c', d');
      }
      DisjointIsApart(p', q');
    }
  }

  lemma DisjointIffApart(p: Fields, q: Fields)
    ensures Disjoint(p, q) <==> Apart(p, q)
  {
    if Disjoint(p, q) {
      DisjointIsApart(p, q);
    }
    if Apart(p, q) {
      forall a, b | Writes(p, a) && Writes(q, b) ensures !Overlap(a, b) {
        ApartIsDisjoint(p, q, a, b);
      }
    }
  }

  lemma DisjointSymmetric(p: Fields, q: Fields)
    ensures Disjoint(p, q) <==> Disjoint(q, p)
  {
  }

  // -------------------------------------------------------------------------
  // Disjoint patches commute
  // -------------------------------------------------------------------------

  /** One member of a merged object. */
  lemma MergedAt(target: Fields, patch: Fields, key: string)
    ensures Get(Merged(target, patch), key)
      == if key !in patch then Get(target, key)
         else if patch[key].Null? then None
         else if patch[key].Object? then Some(Object(Merged(Base(target, key), patch[key].fields)))
         else Some(patch[key])
  {
  }

  lemma SameMembers(f: Fields, g: Fields)
    requires forall key :: Get(f, key) == Get(g, key)
    ensures f == g
  {
    assert forall key :: key in f <==> Get(f, key).Some?;
    assert forall key :: key in g <==> Get(g, key).Some?;
    assert forall key :: key in f ==> Get(f, key).value == f[key];
    assert forall key :: key in g ==> Get(g, key).value == g[key];
  }

  lemma {:induction false} ApartCommute(body: Fields, p: Fields, q: Fields)
    requires Apart(p, q)
    ensures Merged(Merged(body, p), q) == Merged(Merged(body, q), p)
    decreases Object(p)
  {
    hide Merged, Get;
    forall key ensures Get(Merged(Merged(body, p), q), key) == Get(Merged(Merged(body, q), p), key) {
      CommuteAt(body, p, q, key);
    }
    SameMembers(Merged(Merged(body, p), q), Merged(Merged(body, q), p));
  }

  lemma {:induction false} CommuteAt(body: Fields, p: Fields, q: Fields, key: string)
    requires Apart(p, q)
    ensures Get(Merged(Merged(body, p), q), key) == Get(Merged(Merged(body, q), p), key)
    decreases Object(p), 0
  {
    hide Merged;
    MergedAt(body, p, key);
    MergedAt(body, q, key);
    MergedAt(Merged(body, p), q, key);
    MergedAt(Merged(body, q), p, key);
    if key in p && key in q {
      ApartCommute(Base(body, key), p[key].fields, q[key].fields);
    }
  }

  lemma DisjointCommute(body: Fields, p: Fields, q: Fields)
    requires Disjoint(p, q)
    ensures Merged(Merged(body, p), q) == Merged(Merged(body, q), p)
  {
    DisjointIsApart(p, q);
    ApartCommute(body, p, q);
  }

  function Without<T>(xs: seq<T>, i: nat): seq<T>
    requires i < |xs|
  {
    xs[..i] + xs[i + 1..]
  }

  lemma {:induction false} MoveToFront(body: Fields, patches: seq<NamedPatch>, i: nat)
    requires i < |patches| && Compatible(patches)
    ensures Applied(body, patches) == Applied(Merged(body, patches[i].patch), Without(patches, i))
    decreases |patches|
  {
    hide Merged, Disjoint;
    if i == 0 {
      assert Without(patches, 0) == patches[1..];
    } else {
      var first, tail := patches[0].patch, patches[1..];
      forall a, b | 0 <= a < b < |tail| ensures Disjoint(tail[a].patch, tail[b].patch) {
        assert tail[a] == patches[a + 1] && tail[b] == patches[b + 1];
      }
      MoveToFront(Merged(body, first), tail, i - 1);
      DisjointCommute(body, first, patches[i].patch);
      assert Without(patches, i)[1..] == Without(tail, i - 1);
    }
  }

  /**
   Order independence: if a list of patches is accepted, every rearrangement of it is accepted too
   and yields the same value.
   */
  lemma {:induction false} OrderIndependence(body: Fields, xs: seq<NamedPatch>, ys: seq<NamedPatch>)
    requires multiset(xs) == multiset(ys) && Compatible(xs)
    ensures Compatible(ys) && Applied(body, ys) == Applied(body, xs)
    decreases |ys|
  {
    hide Merged, Disjoint;
    if ys == [] {
      assert |xs| == |multiset(xs)| == |multiset(ys)|;
    } else {
      var y, rest := ys[0], ys[1..];
      var i := TakeOne(xs, ys);
      var others := Without(xs, i);
      MoveToFront(body, xs, i);
      CompatibleWithout(xs, i);
      OrderIndependence(Merged(body, y.patch), others, rest);
      forall j | 0 <= j < |rest| ensures Disjoint(y.patch, rest[j].patch) {
        assert rest[j] in multiset(others);
        DisjointFromOthers(xs, i, rest[j]);
      }
    }
  }

  /** Where the first of one list stands in a rearrangement of it. */
  lemma TakeOne<T>(xs: seq<T>, ys: seq<T>) returns (i: nat)
    requires multiset(xs) == multiset(ys) && ys != []
    ensures i < |xs| && xs[i] == ys[0] && multiset(Without(xs, i)) == multiset(ys[1..])
  {
    assert ys == [ys[0]] + ys[1..];
    assert ys[0] in multiset(xs);
    i :| 0 <= i < |xs| && xs[i] == ys[0];
    assert xs == xs[..i] + [xs[i]] + xs[i + 1..];
    assert multiset(xs) == multiset(Without(xs, i)) + multiset{ys[0]};
    assert multiset(ys) == multiset(ys[1..]) + multiset{ys[0]};
    assert multiset(Without(xs, i)) == multiset(xs) - multiset{ys[0]};
  }

  lemma CompatibleWithout(xs: seq<NamedPatch>, i: nat)
    requires Compatible(xs) && i < |xs|
    ensures Compatible(Without(xs, i))
  {
    hide Disjoint;
    var others := Without(xs, i);
    forall a, b | 0 <= a < b < |others| ensures Disjoint(others[a].patch, others[b].patch) {
      assert others[a] == xs[if a < i then a else a + 1] && others[b] == xs[if b < i then b else b + 1];
    }
  }

  lemma DisjointFromOthers(xs: seq<NamedPatch>, i: nat, other: NamedPatch)
    requires i < |xs| && Compatible(xs) && other in Without(xs, i)
    ensures Disjoint(xs[i].patch, other.patch)
  {
    hide Disjoint;
    var k :| 0 <= k < |Without(xs, i)| && Without(xs, i)[k] == other;
    if k < i {
      DisjointSymmetric(xs[k].patch, xs[i].patch);
    } else {
      assert other == xs[k + 1];
    }
  }

  // -------------------------------------------------------------------------
  // What a patch does, path by path
  // -------------------------------------------------------------------------

  lemma {:induction false} MergingTwiceIsOnce(target: Fields, patch: Fields)
    ensures Merged(Merged(target, patch), patch) == Merged(target, patch)
    decreases Object(patch)
  {
    var once, twice := Merged(target, patch), Merged(Merged(target, patch), patch);
    assert twice.Keys == once.Keys;
    forall key | key in once ensures twice[key] == once[key] {
      if key in patch && patch[key].Object? {
        MergingTwiceIsOnce(Base(target, key), patch[key].fields);
      }
    }
  }

  /** `MergePatch` of RFC 7396, section 2, on a target that may be undefined. */
  function Rfc7396(target: Option<Json>, patch: Json): Json
    decreases patch
  {
    if !patch.Object? then patch else
    var start := if target.Some? && target.value.Object? then target.value.fields else map[];
    Object(map name | name in start.Keys + patch.fields.Keys && !(name in patch.fields && patch.fields[name].Null?) ::
      if name in patch.fields then Rfc7396(Get(start, name), patch.fields[name]) else start[name])
  }

  lemma {:induction false} MergedIsRfc7396(target: Fields, patch: Fields)
    ensures Rfc7396(Some(Object(target)), Object(patch)) == Object(Merged(target, patch))
    decreases Object(patch)
  {
    var merged, rfc := Merged(target, patch), Rfc7396(Some(Object(target)), Object(patch)).fields;
    assert merged.Keys == rfc.Keys;
    forall key | key in merged ensures merged[key] == rfc[key] {
      assert key in patch ==> rfc[key] == Rfc7396(Get(target, key), patch[key]);
      if key in patch && patch[key].Object? {
        MergedIsRfc7396(Base(target, key), patch[key].fields);
        RfcIgnoresNonObjects(Get(target, key), Object(Base(target, key)), patch[key]);
      }
    }
  }

  lemma RfcIgnoresNonObjects(target: Option<Json>, start: Json, patch: Json)
    requires patch.Object?
    requires start == if target.Some? && target.value.Object? then target.value else Object(map[])
    ensures Rfc7396(target, patch) == Rfc7396(Some(start), patch)
  {
  }

  /** A path that overlaps nothing written reads the same before and after. */
  lemma {:induction false} UntouchedReadsSame(target: Fields, patch: Fields, path: Path)
    requires forall w :: Writes(patch, w) ==> !Overlap(w, path)
    ensures Read(Object(Merged(target, patch)), path) == Read(Object(target), path)
    decreases |path|
  {
    if path == [] {
      if patch != map[] {
        var key :| key in patch;
        var w := SomePath(patch, key);
        assert false;
      }
      assert Merged(target, patch) == target;
    } else if path[0] in patch {
      var key, rest := path[0], path[1..];
      var w := SomePath(patch, key);
      OverlapSteps(w, path);
      assert !Overlap(w, path);
      assert !IsLeaf(patch[key]);
      var inner := patch[key].fields;
      forall v | Writes(inner, v) ensures !Overlap(v, rest) {
        var v' := [key] + v;
        assert v'[1..] == v;
        assert Writes(patch, v');
        OverlapSteps(v', path);
      }
      assert rest != [] by {
        assert !Overlap(w[1..], rest);
      }
      UntouchedReadsSame(Base(target, key), inner, rest);
    }
  }

  /** The patch's own value at a path it writes. */
  function LeafAt(patch: Fields, path: Path): (leaf: Json)
    requires Writes(patch, path)
    ensures IsLeaf(leaf)
    decreases |path|
  {
    if IsLeaf(patch[path[0]]) then patch[path[0]] else LeafAt(patch[path[0]].fields, path[1..])
  }

  /** What writing a leaf leaves behind: null removes, `{}` keeps or makes an object, the rest replaces. */
  function Effect(leaf: Json, before: Option<Json>): Option<Json> {
    if leaf.Null? then None
    else if leaf.Object? then
      Some(if before.Some? && before.value.Object? then before.value else leaf)
    else Some(leaf)
  }

  lemma {:induction false} WrittenReadsEffect(target: Fields, patch: Fields, path: Path)
    requires Writes(patch, path)
    ensures Read(Object(Merged(target, patch)), path) == Effect(LeafAt(patch, path), Read(Object(target), path))
    decreases |path|
  {
    var key, value, rest := path[0], patch[path[0]], path[1..];
    if IsLeaf(value) {
      assert rest == [];
      if value.Object? {
        assert Merged(Base(target, key), map[]) == Base(target, key);
      }
    } else {
      WrittenReadsEffect(Base(target, key), value.fields, rest);
      if !(key in target && target[key].Object?) {
        assert rest != [];
        assert Read(Object(map[]), rest) == None;
      }
    }
  }

  /** A path that overlaps nothing any of the patches writes. */
  lemma {:induction false} UntouchedByAll(body: Fields, patches: seq<NamedPatch>, path: Path)
    requires forall i, w :: 0 <= i < |patches| && Writes(patches[i].patch, w) ==> !Overlap(w, path)
    ensures Read(Object(Applied(body, patches)), path) == Read(Object(body), path)
    decreases |patches|
  {
    if patches != [] {
      var tail := patches[1..];
      forall i, w | 0 <= i < |tail| && Writes(tail[i].patch, w) ensures !Overlap(w, path) {
        assert tail[i] == patches[i + 1];
      }
      UntouchedReadsSame(body, patches[0].patch, path);
      UntouchedByAll(Merged(body, patches[0].patch), tail, path);
    }
  }

  /** After an accepted list, the effect of every patch on every path it writes is visible at once. */
  lemma AllEffectsVisible(body: Fields, patches: seq<NamedPatch>, i: nat, path: Path)
    requires Compatible(patches) && i < |patches| && Writes(patches[i].patch, path)
    ensures Read(Object(Applied(body, patches)), path)
         == Effect(LeafAt(patches[i].patch, path), Read(Object(body), path))
  {
    hide Merged, Applied, Read, LeafAt, Effect;
    MoveToFront(body, patches, i);
    WrittenReadsEffect(body, patches[i].patch, path);
    var others := Without(patches, i);
    forall j, w | 0 <= j < |others| && Writes(others[j].patch, w) ensures !Overlap(w, path) {
      assert others[j] in others;
      DisjointFromOthers(patches, i, others[j]);
    }
    UntouchedByAll(Merged(body, patches[i].patch), others, path);
  }

  // -------------------------------------------------------------------------
  // The operations as they run
  // -------------------------------------------------------------------------

  datatype Outcome = Accepted(result: Fields) | Conflict(path: Path, earlier: string, later: string)

  method CloneJson(value: Json) returns (copy: Json)
    ensures copy == value
    decreases value
  {
    match value
    case Array(elements) =>
      var copies := [];
      var i := 0;
      while i < |elements|
        invariant 0 <= i <= |elements| && copies == elements[..i]
      {
        var element := CloneJson(elements[i]);
        copies := copies + [element];
        i := i + 1;
      }
      copy := Array(copies);
    case Object(fields) =>
      var copies: Fields := map[];
      var keys := fields.Keys;
      while keys != {}
        invariant keys <= fields.Keys && copies.Keys == fields.Keys - keys
        invariant forall key :: key in copies ==> copies[key] == fields[key]
        decreases keys
      {
        var key :| key in keys;
        var field := CloneJson(fields[key]);
        copies := copies[key := field];
        keys := keys - {key};
      }
      assert copies == fields;
      copy := Object(copies);
    case _ => copy := value;
  }

  method MergeObject(target: Fields, patch: Fields) returns (result: Fields)
    ensures result == Merged(target, patch)
    decreases Object(patch)
  {
    var clone := CloneJson(Object(target));
    result := clone.fields;
    var keys := patch.Keys;
    ghost var merged := Merged(target, patch);
    while keys != {}
      invariant keys <= patch.Keys
      invariant forall key :: key in keys || key !in patch ==> Get(result, key) == Get(target, key)
      invariant forall key :: key in patch && key !in keys ==> Get(result, key) == Get(merged, key)
      decreases keys
    {
      var key :| key in keys;
      keys := keys - {key};
      var patchValue := patch[key];
      if patchValue.Null? {
        result := result - {key};
      } else if patchValue.Object? {
        assert Get(result, key) == Get(target, key);
        var inner := MergeObject(if key in result && result[key].Object? then result[key].fields else map[], patchValue.fields);
        result := result[key := Object(inner)];
      } else {
        var copy := CloneJson(patchValue);
        result := result[key := copy];
      }
    }
    assert forall key :: Get(result, key) == Get(merged, key);
    forall key ensures key in result <==> key in merged {
      assert Get(result, key) == Get(merged, key);
    }
    forall key | key in result ensures result[key] == merged[key] {
      assert Get(result, key) == Get(merged, key);
    }
  }

  method CollectWrittenPaths(patch: Fields, prefix: Path) returns (paths: seq<Path>)
    ensures forall i, j :: 0 <= i < j < |paths| ==> paths[i] != paths[j]
    ensures forall path :: path in paths <==> prefix <= path && Writes(patch, path[|prefix|..])
    decreases Object(patch)
  {
    paths := [];
    var keys := patch.Keys;
    while keys != {}
      invariant keys <= patch.Keys
      invariant forall i, j :: 0 <= i < j < |paths| ==> paths[i] != paths[j]
      invariant forall path :: path in paths <==>
        prefix <= path && Writes(patch, path[|prefix|..]) && path[|prefix|] !in keys
      decreases keys
    {
      var key :| key in keys;
      keys := keys - {key};
      var here := prefix + [key];
      var more: seq<Path>;
      if patch[key].Object? && patch[key].fields != map[] {
        more := CollectWrittenPaths(patch[key].fields, here);
      } else {
        more := [here];
      }
      forall path
        ensures path in more <==> prefix <= path && Writes(patch, path[|prefix|..]) && path[|prefix|] == key
      {
        MemberPaths(patch, prefix, key, path);
      }
      assert forall i, j :: 0 <= i < |paths| && 0 <= j < |more| ==> paths[i] != more[j] by {
        assert forall i :: 0 <= i < |paths| ==> paths[i] in paths;
        assert forall j :: 0 <= j < |more| ==> more[j] in more;
      }
      paths := paths + more;
    }
  }

  /** The written paths below one member of a patch. */
  lemma MemberPaths(patch: Fields, prefix: Path, key: string, path: Path)
    requires key in patch
    ensures (prefix <= path && Writes(patch, path[|prefix|..]) && path[|prefix|] == key)
       <==> if IsLeaf(patch[key]) then path == prefix + [key]
            else prefix + [key] <= path && Writes(patch[key].fields, path[|prefix| + 1..])
  {
    if prefix <= path && |path| > |prefix| {
      assert path[|prefix|..][1..] == path[|prefix| + 1..];
      assert path == prefix + [path[|prefix|]] + path[|prefix| + 1..];
    }
  }

  method PathsOverlap(left: Path, right: Path) returns (overlap: bool)
    ensures overlap == Overlap(left, right)
  {
    var sharedLength := if |left| < |right| then |left| else |right|;
    var index := 0;
    while index < sharedLength
      invariant 0 <= index <= sharedLength
      invariant left[..index] == right[..index]
    {
      if left[index] != right[index] {
        return false;
      }
      index := index + 1;
    }
    return true;
  }

  datatype OwnedPath = OwnedPath(option: string, path: Path)

  method FindConflict(ownedPaths: seq<OwnedPath>, path: Path) returns (conflict: Option<OwnedPath>)
    ensures conflict.Some? ==> conflict.value in ownedPaths && Overlap(conflict.value.path, path)
    ensures conflict.None? ==> forall owned :: owned in ownedPaths ==> !Overlap(owned.path, path)
  {
    var i := 0;
    while i < |ownedPaths|
      invariant 0 <= i <= |ownedPaths|
      invariant forall j :: 0 <= j < i ==> !Overlap(ownedPaths[j].path, path)
    {
      var overlap := PathsOverlap(ownedPaths[i].path, path);
      if overlap {
        return Some(ownedPaths[i]);
      }
      i := i + 1;
    }
    return None;
  }

  /** The paths owned once the first `count` patches have been gone through. */
  ghost predicate Owns(ownedPaths: seq<OwnedPath>, patches: seq<NamedPatch>, count: nat)
    requires count <= |patches|
  {
    && (forall owned :: owned in ownedPaths ==> OwnedBySome(owned, patches, count))
    && (forall j, path :: 0 <= j < count && Writes(patches[j].patch, path) ==>
          OwnedPath(patches[j].option, path) in ownedPaths)
  }

  ghost predicate OwnedBySome(owned: OwnedPath, patches: seq<NamedPatch>, count: nat)
    requires count <= |patches|
  {
    exists j :: 0 <= j < count && patches[j].option == owned.option && Writes(patches[j].patch, owned.path)
  }

  /** The report of a refusal: an earlier and a later patch, and a path of the later one in conflict. */
  ghost predicate ReportsConflict(outcome: Outcome, patches: seq<NamedPatch>)
    requires outcome.Conflict?
  {
    exists i, j, owned :: 0 <= i < j < |patches|
      && patches[i].option == outcome.earlier && patches[j].option == outcome.later
      && Writes(patches[i].patch, owned) && Writes(patches[j].patch, outcome.path) && Overlap(owned, outcome.path)
  }

  method ApplyOrderedJsonMergePatches(body: Fields, patches: seq<NamedPatch>) returns (outcome: Outcome)
    ensures outcome.Accepted? <==> Compatible(patches)
    ensures outcome.Accepted? ==> outcome.result == Applied(body, patches)
    ensures outcome.Conflict? ==> ReportsConflict(outcome, patches)
  {
    hide Merged, Writes, Overlap, Compatible, ReportsConflict;
    var ownedPaths: seq<OwnedPath> := [];
    assert Owns([], patches, 0) && Compatible(patches[..0]) by { NothingOwned(patches); }
    var clone := CloneJson(Object(body));
    var result := clone.fields;
    var n := 0;
    while n < |patches|
      invariant 0 <= n <= |patches|
      invariant Owns(ownedPaths, patches, n) && Compatible(patches[..n])
      invariant Applied(result, patches[n..]) == Applied(body, patches)
    {
      var named := patches[n];
      var paths := CollectWrittenPaths(named.patch, []);
      assert forall path: Path :: path[0..] == path;
      ghost var before := ownedPaths;
      var k := 0;
      while k < |paths|
        invariant 0 <= k <= |paths|
        invariant Checked(before, ownedPaths, named.option, paths, k)
      {
        var path := paths[k];
        var conflict := FindConflict(ownedPaths, path);
        if conflict.Some? {
          ConflictIsReal(before, ownedPaths, patches, n, paths, k, conflict.value);
          return Conflict(path, conflict.value.option, named.option);
        }
        ownedPaths := ownedPaths + [OwnedPath(named.option, path)];
        k := k + 1;
      }
      RoundAccepted(before, ownedPaths, patches, n, paths);
      result := MergeObject(result, named.patch);
      assert patches[n..][1..] == patches[n + 1..];
      n := n + 1;
    }
    assert patches[..n] == patches && patches[n..] == [];
    outcome := Accepted(result);
  }

  lemma NothingOwned(patches: seq<NamedPatch>)
    ensures Owns([], patches, 0) && Compatible(patches[..0])
  {
  }

  /** Part of a round: the first paths of this patch met nothing owned before, and are owned now. */
  ghost predicate Checked(before: seq<OwnedPath>, now: seq<OwnedPath>, option: string, paths: seq<Path>, k: nat)
    requires k <= |paths|
  {
    && (forall owned :: owned in now <==> owned in before || exists i :: 0 <= i < k && owned == OwnedPath(option, paths[i]))
    && (forall owned, i :: owned in before && 0 <= i < k ==> !Overlap(owned.path, paths[i]))
  }

  lemma ConflictIsReal(before: seq<OwnedPath>, now: seq<OwnedPath>, patches: seq<NamedPatch>, n: nat,
                       paths: seq<Path>, k: nat, owned: OwnedPath)
    requires n < |patches| && k < |paths|
    requires Owns(before, patches, n) && Checked(before, now, patches[n].option, paths, k)
    requires forall i, j :: 0 <= i < j < |paths| ==> paths[i] != paths[j]
    requires forall path :: path in paths ==> Writes(patches[n].patch, path)
    requires owned in now && Overlap(owned.path, paths[k])
    ensures ReportsConflict(Conflict(paths[k], owned.option, patches[n].option), patches)
    ensures !Compatible(patches)
  {
    assert paths[k] in paths;
    if owned in before {
      assert OwnedBySome(owned, patches, n);
      var j :| 0 <= j < n && patches[j].option == owned.option && Writes(patches[j].patch, owned.path);
      assert !Disjoint(patches[j].patch, patches[n].patch);
    } else {
      var i :| 0 <= i < k && owned == OwnedPath(patches[n].option, paths[i]);
      assert paths[i] in paths;
      WrittenPathsAreAntichain(patches[n].patch, paths[i], paths[k]);
      assert false;
    }
  }

  lemma RoundAccepted(before: seq<OwnedPath>, now: seq<OwnedPath>, patches: seq<NamedPatch>, n: nat, paths: seq<Path>)
    requires n < |patches|
    requires Owns(before, patches, n) && Compatible(patches[..n])
    requires Checked(before, now, patches[n].option, paths, |paths|)
    requires forall path :: path in paths <==> Writes(patches[n].patch, path)
    ensures Owns(now, patches, n + 1) && Compatible(patches[..n + 1])
  {
    forall owned | owned in now ensures OwnedBySome(owned, patches, n + 1) {
      if owned in before {
        assert OwnedBySome(owned, patches, n);
      } else {
        var i :| 0 <= i < |paths| && owned == OwnedPath(patches[n].option, paths[i]);
        assert paths[i] in paths;
      }
    }
    forall j, path | 0 <= j < n + 1 && Writes(patches[j].patch, path)
      ensures OwnedPath(patches[j].option, path) in now
    {
      if j == n {
        var i :| 0 <= i < |paths| && paths[i] == path;
      }
    }
    forall i, j | 0 <= i < j < n + 1 ensures Disjoint(patches[i].patch, patches[j].patch) {
      if j == n {
        forall a, b | Writes(patches[i].patch, a) && Writes(patches[n].patch, b) ensures !Overlap(a, b) {
          assert OwnedPath(patches[i].option, a) in before;
          var k :| 0 <= k < |paths| && paths[k] == b;
        }
      } else {
        assert patches[..n][i] == patches[i] && patches[..n][j] == patches[j];
      }
    }
  }
}
