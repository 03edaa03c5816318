/** Collecting the manifests of a repository: the same depth-first walk, written once for the
    GitHub contents API and once for the GitLab tree API. */
module RepoWalk {
  import opened Wrappers

  /** One entry of a listing; a directory comes with what listing it will answer. */
  datatype Entry = File(info: string) | Dir(listing: Listing) | Other

  /** An error, a single entry (GitHub's answer for a path that is a file), or several. */
  datatype Listing = Failed | Single(entry: Entry) | Several(entries: seq<Entry>)

  // ---------- what the walk should find ----------

  /** The files below, in depth-first listing order, or nothing if some listing fails. Only
      one of the two clients makes sense of a single entry. */
  function Flatten(l: Listing, singles: bool): Option<seq<string>>
    decreases l, 1
  {
    match l
    case Failed => None
    case Single(e) => if singles then FlattenEntry(e, singles) else None
    case Several(es) => FlattenAll(es, singles)
  }

  function FlattenEntry(e: Entry, singles: bool): Option<seq<string>>
    decreases e, 0
  {
    match e
    case File(info) => Some([info])
    case Dir(l) => Flatten(l, singles)
    case Other => Some([])
  }

  function FlattenAll(es: seq<Entry>, singles: bool): Option<seq<string>>
    decreases es, 0
  {
    if es == [] then Some([])
    else
      match FlattenEntry(es[0], singles)
      case None => None
      case Some(first) =>
        match FlattenAll(es[1..], singles)
        case None => None
        case Some(rest) => Some(first + rest)
  }

  /** The walk's answer for a starting accumulator. */
  function Onto(infos: seq<string>, found: Option<seq<string>>): Option<seq<string>> {
    match found
    case None => None
    case Some(fs) => Some(infos + fs)
  }

  // ---------- the two walks ----------

  method GitHubManifestInfos(l: Listing, manifestInfos: seq<string>) returns (r: Option<seq<string>>)
    ensures r == Onto(manifestInfos, Flatten(l, true))
    decreases l
  {
    if l.Failed? {
      return None;
    }
    var contents := if l.Several? then l.entries else [l.entry];
    assert Flatten(l, true) == FlattenAll(contents, true) by {
      if l.Single? {
        OneEntry(l.entry, true);
      }
    }
    var infos := manifestInfos;
    var i := 0;
    while i < |contents|
      invariant 0 <= i <= |contents|
      invariant Onto(manifestInfos, FlattenAll(contents, true)) == Onto(infos, FlattenAll(contents[i..], true))
    {
      OntoFirst(infos, contents[i..], true);
      assert contents[i..][1..] == contents[i + 1..] && infos + [] == infos;
      match contents[i] {
        case File(info) => infos := infos + [info];
        case Dir(listing) =>
          assert contents[i] in contents;
          var below := GitHubManifestInfos(listing, infos);
          if below.None? {
            return None;
          }
          infos := below.value;
        case Other =>
      }
      i := i + 1;
    }
    assert infos + [] == infos;
    r := Some(infos);
  }

  method GitLabManifestInfos(l: Listing, manifestInfos: seq<string>) returns (r: Option<seq<string>>)
    ensures r == Onto(manifestInfos, Flatten(l, false))
    decreases l
  {
    if !l.Several? {
      return None;
    }
    var infos := manifestInfos;
    var i := 0;
    while i < |l.entries|
      invariant 0 <= i <= |l.entries|
      invariant Onto(manifestInfos, FlattenAll(l.entries, false)) == Onto(infos, FlattenAll(l.entries[i..], false))
    {
      OntoFirst(infos, l.entries[i..], false);
      assert l.entries[i..][1..] == l.entries[i + 1..] && infos + [] == infos;
      match l.entries[i] {
        case File(info) => infos := infos + [info];
        case Dir(listing) =>
          var below := GitLabManifestInfos(listing, infos);
          if below.None? {
            return None;
          }
          infos := below.value;
        case Other =>
      }
      i := i + 1;
    }
    assert infos + [] == infos;
    r := Some(infos);
  }

  lemma OneEntry(e: Entry, singles: bool)
    ensures FlattenAll([e], singles) == FlattenEntry(e, singles)
  {
    assert [e][1..] == [];
    if FlattenEntry(e, singles).Some? {
      assert FlattenEntry(e, singles).value + [] == FlattenEntry(e, singles).value;
    }
  }

  /** An entry's files can be put onto the accumulator before those of the entries after it. */
  lemma OntoFirst(infos: seq<string>, es: seq<Entry>, singles: bool)
    requires es != []
    ensures Onto(infos, FlattenAll(es, singles))
         == match Onto(infos, FlattenEntry(es[0], singles)) {
              case None => None
              case Some(first) => Onto(first, FlattenAll(es[1..], singles))
            }
  {
    var first, rest := FlattenEntry(es[0], singles), FlattenAll(es[1..], singles);
    if first.Some? && rest.Some? {
      assert infos + (first.value + rest.value) == (infos + first.value) + rest.value;
    }
  }

  // ---------- what that amounts to ----------

  /** Every listing the walk comes to is answered with something it understands. */
  predicate Answered(l: Listing, singles: bool)
    decreases l, 1
  {
    match l
    case Failed => false
    case Single(e) => singles && AnsweredEntry(e, singles)
    case Several(es) => forall e | e in es :: AnsweredEntry(e, singles)
  }

  predicate AnsweredEntry(e: Entry, singles: bool)
    decreases e, 0
  {
    e.Dir? ==> Answered(e.listing, singles)
  }

  /** The file is listed here or in some directory below. */
  predicate Below(info: string, l: Listing)
    decreases l, 1
  {
    match l
    case Failed => false
    case Single(e) => BelowEntry(info, e)
    case Several(es) => exists e :: e in es && BelowEntry(info, e)
  }

  predicate BelowEntry(info: string, e: Entry)
    decreases e, 0
  {
    match e
    case File(i) => i == info
    case Dir(l) => Below(info, l)
    case Other => false
  }

  /** A walk yields a list exactly when every listing it comes to is answered, and never a
      partial one: the list then holds exactly the files that are there. */
  lemma {:induction false} FlattenComplete(l: Listing, singles: bool)
    ensures Flatten(l, singles).Some? <==> Answered(l, singles)
    ensures Flatten(l, singles).Some? ==> forall info :: info in Flatten(l, singles).value <==> Below(info, l)
    decreases l, 1
  {
    match l
    case Failed =>
    case Single(e) => FlattenEntryComplete(e, singles);
    case Several(es) => FlattenAllComplete(es, singles);
  }

  lemma {:induction false} FlattenEntryComplete(e: Entry, singles: bool)
    ensures FlattenEntry(e, singles).Some? <==> AnsweredEntry(e, singles)
    ensures FlattenEntry(e, singles).Some? ==>
              forall info :: info in FlattenEntry(e, singles).value <==> BelowEntry(info, e)
    decreases e, 0
  {
    if e.Dir? {
      FlattenComplete(e.listing, singles);
    }
  }

  lemma {:induction false} FlattenAllComplete(es: seq<Entry>, singles: bool)
    ensures FlattenAll(es, singles).Some? <==> forall e | e in es :: AnsweredEntry(e, singles)
    ensures FlattenAll(es, singles).Some? ==>
              forall info :: info in FlattenAll(es, singles).value <==> exists e :: e in es && BelowEntry(info, e)
    decreases es, 0
  {
    if es != [] {
      var first, rest := es[0], es[1..];
      FlattenEntryComplete(first, singles);
      FlattenAllComplete(rest, singles);
      assert forall e :: e in es <==> e == first || e in rest;
      if FlattenAll(es, singles).Some? {
        var a, b := FlattenEntry(first, singles).value, FlattenAll(rest, singles).value;
        assert FlattenAll(es, singles).value == a + b;
        forall info | info in a + b
          ensures exists e :: e in es && BelowEntry(info, e)
        {
          if info in a {
            assert first in es && BelowEntry(info, first);
          } else {
            var e :| e in rest && BelowEntry(info, e);
            assert e in es;
          }
        }
        forall info, e | e in es && BelowEntry(info, e)
          ensures info in a + b
        {
          assert e == first || e in rest;
        }
      }
    }
  }

  // ---------- in what order, and how often ----------

  /** The file found by going down: the number of the entry in each listing on the way. */
  function FileAt(l: Listing, path: seq<nat>): Option<string>
    decreases l, 1
  {
    match l
    case Failed => None
    case Single(e) => if path != [] && path[0] == 0 then FileAtEntry(e, path[1..]) else None
    case Several(es) => if path != [] && path[0] < |es| then FileAtEntry(es[path[0]], path[1..]) else None
  }

  function FileAtEntry(e: Entry, path: seq<nat>): Option<string>
    decreases e, 0
  {
    match e
    case File(info) => if path == [] then Some(info) else None
    case Dir(l) => FileAt(l, path)
    case Other => None
  }

  /** Where the ways part, the one goes by an earlier entry than the other. */
  predicate Before(p: seq<nat>, q: seq<nat>)
    decreases p
  {
    p != [] && q != [] && (p[0] < q[0] || (p[0] == q[0] && Before(p[1..], q[1..])))
  }

  /** The files are those at the places, one for each place there is, earlier places first. */
  ghost predicate InOrder(at: seq<nat> -> Option<string>, places: seq<seq<nat>>, files: seq<string>) {
    && |places| == |files|
    && (forall i | 0 <= i < |places| :: at(places[i]) == Some(files[i]))
    && (forall i, j | 0 <= i < j < |places| :: Before(places[i], places[j]))
    && forall p | at(p).Some? :: p in places
  }

  function AllAt(es: seq<Entry>): seq<nat> -> Option<string> {
    p => FileAt(Several(es), p)
  }

  function EntryAt(e: Entry): seq<nat> -> Option<string> {
    p => FileAtEntry(e, p)
  }

  /** The places of an entry, seen from the listing whose first entry it is, and the places of the
      entries after it. */
  function Joined(first: seq<seq<nat>>, rest: seq<seq<nat>>): seq<seq<nat>>
    requires forall q | q in rest :: q != []
  {
    seq(|first| + |rest|, i requires 0 <= i < |first| + |rest| =>
      if i < |first| then [0] + first[i]
      else assert rest[i - |first|] in rest; [rest[i - |first|][0] + 1] + rest[i - |first|][1..])
  }

  lemma JoinedOrdered(first: seq<seq<nat>>, rest: seq<seq<nat>>)
    requires forall q | q in rest :: q != []
    requires forall i, j | 0 <= i < j < |first| :: Before(first[i], first[j])
    requires forall i, j | 0 <= i < j < |rest| :: Before(rest[i], rest[j])
    ensures var all := Joined(first, rest);
            forall i, j | 0 <= i < j < |all| :: Before(all[i], all[j])
  {
    var all := Joined(first, rest);
    forall i, j | 0 <= i < j < |all|
      ensures Before(all[i], all[j])
    {
      if j < |first| {
        assert Before(first[i], first[j]);
        assert all[i][1..] == first[i] && all[j][1..] == first[j];
      } else if i >= |first| {
        var p, q := rest[i - |first|], rest[j - |first|];
        assert Before(p, q) && p in rest && q in rest;
        assert all[i] == [p[0] + 1] + p[1..] && all[j] == [q[0] + 1] + q[1..];
        assert all[i][1..] == p[1..] && all[j][1..] == q[1..];
      } else {
        assert rest[j - |first|] in rest;
        assert all[i][0] == 0 && all[j][0] > 0;
      }
    }
  }

  lemma PlacesNotEmpty(es: seq<Entry>, places: seq<seq<nat>>, files: seq<string>)
    requires InOrder(AllAt(es), places, files)
    ensures forall q | q in places :: q != []
  {
    forall q | q in places
      ensures q != []
    {
      var i :| 0 <= i < |places| && places[i] == q;
      assert AllAt(es)(places[i]) == Some(files[i]);
    }
  }

  lemma JoinedInOrder(es: seq<Entry>, first: seq<seq<nat>>, a: seq<string>, rest: seq<seq<nat>>, b: seq<string>)
    requires es != []
    requires InOrder(EntryAt(es[0]), first, a) && InOrder(AllAt(es[1..]), rest, b)
    requires forall q | q in rest :: q != []
    ensures InOrder(AllAt(es), Joined(first, rest), a + b)
  {
    var all, at := Joined(first, rest), AllAt(es);
    JoinedOrdered(first, rest);
    forall i | 0 <= i < |all|
      ensures at(all[i]) == Some((a + b)[i])
    {
      if i < |first| {
        assert all[i][1..] == first[i];
        assert EntryAt(es[0])(first[i]) == Some(a[i]);
      } else {
        var q := rest[i - |first|];
        assert q in rest && all[i][1..] == q[1..];
        assert AllAt(es[1..])(q) == Some(b[i - |first|]);
        assert q[0] < |es[1..]| && es[1..][q[0]] == es[q[0] + 1];
      }
    }
    forall p | at(p).Some?
      ensures p in all
    {
      if p[0] == 0 {
        assert EntryAt(es[0])(p[1..]).Some?;
        var i :| 0 <= i < |first| && first[i] == p[1..];
        assert all[i] == p;
      } else {
        var q := [p[0] - 1] + p[1..];
        assert q[1..] == p[1..] && es[1..][q[0]] == es[p[0]];
        assert AllAt(es[1..])(q).Some?;
        var i :| 0 <= i < |rest| && rest[i] == q;
        assert all[|first| + i] == p;
      }
    }
  }

  /** A list holds each file once for each place where it is, in depth-first order of the places. */
  lemma {:induction false} FlattenInOrder(l: Listing, singles: bool) returns (places: seq<seq<nat>>)
    requires Flatten(l, singles).Some?
    ensures InOrder(p => FileAt(l, p), places, Flatten(l, singles).value)
    decreases l, 1
  {
    match l
    case Single(e) =>
      OneEntry(e, singles);
      assert e == [e][0] && [e][1..] == [];
      var first := FlattenEntryInOrder(e, singles);
      var found := FlattenEntry(e, singles).value;
      JoinedInOrder([e], first, found, [], []);
      assert found + [] == found;
      places := Joined(first, []);
      assert forall p :: FileAt(l, p) == AllAt([e])(p);
    case Several(es) =>
      places := FlattenAllInOrder(es, singles);
      assert forall p :: FileAt(l, p) == AllAt(es)(p);
  }

  lemma {:induction false} FlattenEntryInOrder(e: Entry, singles: bool) returns (places: seq<seq<nat>>)
    requires FlattenEntry(e, singles).Some?
    ensures InOrder(EntryAt(e), places, FlattenEntry(e, singles).value)
    decreases e, 0
  {
    match e
    case File(info) => places := [[]];
    case Dir(l) =>
      places := FlattenInOrder(l, singles);
      assert forall p :: FileAtEntry(e, p) == FileAt(l, p);
    case Other => places := [];
  }

  lemma {:induction false} FlattenAllInOrder(es: seq<Entry>, singles: bool) returns (places: seq<seq<nat>>)
    requires FlattenAll(es, singles).Some?
    ensures InOrder(AllAt(es), places, FlattenAll(es, singles).value)
    decreases es, 0
  {
    if es == [] {
      places := [];
    } else {
      var first := FlattenEntryInOrder(es[0], singles);
      var rest := FlattenAllInOrder(es[1..], singles);
      PlacesNotEmpty(es[1..], rest, FlattenAll(es[1..], singles).value);
      JoinedInOrder(es, first, FlattenEntry(es[0], singles).value, rest, FlattenAll(es[1..], singles).value);
      places := Joined(first, rest);
    }
  }

  /** Where no listing answers with a single entry the two walks agree. */
  predicate NoSingles(l: Listing)
    decreases l
  {
    !l.Single? && (l.Several? ==> forall e | e in l.entries && e.Dir? :: NoSingles(e.listing))
  }

  lemma {:induction false} WalksAgree(l: Listing)
    requires NoSingles(l)
    ensures Flatten(l, true) == Flatten(l, false)
    decreases l, 1
  {
    if l.Several? {
      WalksAgreeAll(l.entries);
    }
  }

  lemma {:induction false} WalksAgreeEntry(e: Entry)
    requires e.Dir? ==> NoSingles(e.listing)
    ensures FlattenEntry(e, true) == FlattenEntry(e, false)
    decreases e, 0
  {
    if e.Dir? {
      WalksAgree(e.listing);
    }
  }

  lemma {:induction false} WalksAgreeAll(es: seq<Entry>)
    requires forall e | e in es && e.Dir? :: NoSingles(e.listing)
    ensures FlattenAll(es, true) == FlattenAll(es, false)
    decreases es, 0
  {
    if es != [] {
      WalksAgreeEntry(es[0]);
      WalksAgreeAll(es[1..]);
    }
  }
}
