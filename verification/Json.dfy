/** JSON trees and the merge patch behind the drift test.
    `Merge` follows section 2 of RFC 7396, the document the patch library implements. */
module Json {

  datatype Json =
    | Null
    | Bool(b: bool)
    | Num(n: int)
    | Str(s: string)
    | Arr(items: seq<Json>)
    | Obj(members: map<string, Json>)

  datatype Found = Absent | Present(value: Json)

  function Members(j: Json): map<string, Json> {
    if j.Obj? then j.members else map[]
  }

  /** A member that is missing counts as null: neither is an object. */
  function Member(j: Json, name: string): Json {
    if j.Obj? && name in j.members then j.members[name] else Null
  }

  predicate Deletes(patch: Json, name: string) {
    patch.Obj? && name in patch.members && patch.members[name].Null?
  }

  function Merge(target: Json, patch: Json): Json
    decreases patch
  {
    if patch.Obj? then
      Obj(map name | name in Members(target).Keys + patch.members.Keys && !Deletes(patch, name) ::
            if name in patch.members then Merge(Member(target, name), patch.members[name])
            else Member(target, name))
    else
      patch
  }

  /** No member of an object is null, at any depth reached through objects alone.
      Arrays are replaced whole, so what they contain plays no part. */
  predicate NullFree(j: Json) {
    j.Obj? ==> forall name | name in j.members :: !j.members[name].Null? && NullFree(j.members[name])
  }

  /** The value found by following member names down from the root. */
  function Lookup(j: Json, path: seq<string>): Found
    decreases path
  {
    if path == [] then Present(j)
    else if j.Obj? && path[0] in j.members then Lookup(j.members[path[0]], path[1..])
    else Absent
  }

  /** The patch names a scalar or an array there. */
  predicate Forces(patch: Json, path: seq<string>) {
    var found := Lookup(patch, path);
    found.Present? && !found.value.Obj? && !found.value.Null?
  }

  /** The patch stops naming members somewhere along the path: every prefix up to that
      point is an object in the patch, and the next name is not among its members. */
  predicate Unnamed(patch: Json, path: seq<string>)
    decreases path
  {
    && patch.Obj?
    && path != []
    && (path[0] in patch.members ==> Unnamed(patch.members[path[0]], path[1..]))
  }

  /** Merging the same manifest a second time changes nothing. */
  lemma {:induction false} MergeIdempotent(target: Json, patch: Json)
    ensures Merge(Merge(target, patch), patch) == Merge(target, patch)
    decreases patch
  {
    if patch.Obj? {
      var once := Merge(target, patch);
      var twice := Merge(once, patch);
      assert once.members.Keys == twice.members.Keys;
      forall name | name in once.members
        ensures twice.members[name] == once.members[name]
      {
        if name in patch.members {
          MergeIdempotent(Member(target, name), patch.members[name]);
        }
      }
      assert once.members == twice.members;
    }
  }

  /** Every scalar and every array the manifest names is forced, at any depth. */
  lemma {:induction false} MergeForces(target: Json, patch: Json, path: seq<string>)
    requires Forces(patch, path)
    ensures Lookup(Merge(target, patch), path) == Lookup(patch, path)
    decreases path
  {
    if path != [] {
      MergeForces(Member(target, path[0]), patch.members[path[0]], path[1..]);
    }
  }

  /** Every object the manifest names, and the manifest itself, is an object afterwards, at any depth,
      whatever was deployed there. */
  lemma {:induction false} MergeObjects(target: Json, patch: Json, path: seq<string>)
    requires Lookup(patch, path).Present? && Lookup(patch, path).value.Obj?
    ensures var merged := Lookup(Merge(target, patch), path);
            merged.Present? && merged.value.Obj?
    decreases path
  {
    if path != [] {
      MergeObjects(Member(target, path[0]), patch.members[path[0]], path[1..]);
    }
  }

  /** Every member the manifest sets to null is gone afterwards, at any depth. */
  lemma {:induction false} MergeDeletes(target: Json, patch: Json, path: seq<string>)
    requires path != [] && Lookup(patch, path) == Present(Null)
    ensures Lookup(Merge(target, patch), path) == Absent
    decreases path
  {
    if |path| > 1 {
      MergeDeletes(Member(target, path[0]), patch.members[path[0]], path[1..]);
    }
  }

  /** Whatever the manifest does not name is kept exactly as deployed, at any depth. */
  lemma {:induction false} MergeKeeps(target: Json, patch: Json, path: seq<string>)
    requires Unnamed(patch, path)
    ensures Lookup(Merge(target, patch), path) == Lookup(target, path)
    decreases path
  {
    if path[0] in patch.members {
      var rest := path[1..];
      MergeKeeps(Member(target, path[0]), patch.members[path[0]], rest);
      assert Lookup(Null, rest) == Absent;
    }
  }

  /** A manifest merged into itself is itself exactly when it is null-free. */
  lemma {:induction false} MergeIntoSelf(patch: Json)
    ensures Merge(patch, patch) == patch <==> NullFree(patch)
    decreases patch
  {
    if patch.Obj? {
      forall name | name in patch.members
        ensures Merge(patch.members[name], patch.members[name]) == patch.members[name]
           <==> NullFree(patch.members[name])
      {
        MergeIntoSelf(patch.members[name]);
      }
      var merged := Merge(patch, patch);
      if NullFree(patch) {
        assert merged.members == patch.members;
      }
    }
  }
}
