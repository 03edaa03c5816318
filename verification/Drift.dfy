/** What the sync status means, and when repeated passes come to rest. */
module Drift {
  import opened Json
  import opened Ledger
  import opened Cluster
  import opened Reconcile
  import opened Safety

  /** The live object prints the same as what merging the manifest into it would store. */
  predicate InSync(env: Env, target: map<ObjKey, Json>, m: Manifest) {
    m.key in target && env.render(target[m.key]) == env.render(Desired(env, target[m.key], m.body))
  }

  predicate AllInSync(env: Env, target: map<ObjKey, Json>, ms: seq<Manifest>) {
    forall m | m in ms :: InSync(env, target, m)
  }

  /** Nothing persisted between the two logs created or updated an object. */
  predicate NoStores(before: seq<Write>, after: seq<Write>) {
    && before <= after
    && forall i | |before| <= i < |after| :: !after[i].ObjectCreated? && !after[i].ObjectUpdated?
  }

  lemma NoStoresTrans(a: seq<Write>, b: seq<Write>, c: seq<Write>)
    requires NoStores(a, b) && NoStores(b, c)
    ensures NoStores(a, c)
  {
    forall i | |a| <= i < |c|
      ensures !c[i].ObjectCreated? && !c[i].ObjectUpdated?
    {
      if i < |b| {
        assert b[i] == c[i];
      }
    }
  }

  lemma CompareMeans(env: Env, w: World, status: Status, m: Manifest)
    ensures var cmp := Compare(env, w, status, m);
            cmp.verdict != Broken ==>
              && (cmp.verdict == Same <==> InSync(env, w.target, m))
              && cmp.status == (if cmp.verdict == Same then status else OutOfSync)
              && (cmp.verdict.Differs? ==>
                    m.key in w.target && cmp.verdict.body == Desired(env, w.target[m.key], m.body))
  {
  }

  lemma ObjectStepStatus(env: Env, job: Job, p: Pass, m: Manifest)
    ensures var o := ObjectStep(env, job, p, m);
            && (o.ok ==> o.p.status == (if InSync(env, p.w.target, m) then p.status else OutOfSync))
            && (InSync(env, p.w.target, m) ==>
                  && o.p.w.target == p.w.target && o.p.w.created == p.w.created
                  && NoStores(p.w.log, o.p.w.log) && o.p.status == p.status
                  && (Rk(Claim(job.app, m.key)) in p.w.ledger ==>
                        o.p.w.ledger == p.w.ledger && o.p.w.log == p.w.log))
  {
    var r := UpdateRecord(env, p.w, Claim(job.app, m.key));
    CompareMeans(env, r.w, p.status, m);
    CompareShape(env, r.w, p.status, m);
  }

  /** The loop leaves the status alone exactly when every object was in sync to begin with;
      then it has stored nothing. */
  lemma {:induction false} RunItemsStatus(env: Env, job: Job, p: Pass, items: seq<Item>)
    requires p.status == Unknown
    ensures var o := RunItems(env, job, p, items);
            && (o.ok ==> o.p.status == (if AllInSync(env, p.w.target, Objects(items)) then Unknown else OutOfSync))
            && (AllInSync(env, p.w.target, Objects(items)) ==>
                  o.p.w.target == p.w.target && o.p.w.created == p.w.created && NoStores(p.w.log, o.p.w.log))
    decreases items
  {
    if items != [] {
      var o := ItemStep(env, job, p, items[0]);
      var rest := items[1..];
      assert Objects(items) == Objects([items[0]]) + Objects(rest);
      if items[0].Object? {
        assert items[0].m in Objects(items);
        ObjectStepStatus(env, job, p, items[0].m);
      }
      assert forall m | m in Objects(rest) :: m in Objects(items);
      if o.ok && o.p.status == Unknown {
        RunItemsStatus(env, job, o.p, rest);
        assert AllInSync(env, p.w.target, Objects(items)) <==> AllInSync(env, p.w.target, Objects(rest));
        var last := RunItems(env, job, o.p, rest);
        if AllInSync(env, p.w.target, Objects(items)) {
          NoStoresTrans(p.w.log, o.p.w.log, last.p.w.log);
        }
      } else if o.ok {
        OutOfSyncStays(env, job, o.p, rest);
      }
    }
  }

  lemma {:induction false} OutOfSyncStays(env: Env, job: Job, p: Pass, items: seq<Item>)
    requires p.status == OutOfSync
    ensures RunItems(env, job, p, items).p.status == OutOfSync
    decreases items
  {
    if items != [] {
      var o := ItemStep(env, job, p, items[0]);
      if items[0].Object? {
        var r := UpdateRecord(env, p.w, Claim(job.app, items[0].m.key));
        CompareMeans(env, r.w, p.status, items[0].m);
      }
      OutOfSyncStays(env, job, o.p, items[1..]);
    }
  }

  lemma {:induction false} PruneStoresNothing(env: Env, w: World, listing: seq<Listed>, keep: set<string>)
    ensures NoStores(w.log, Prune(env, w, listing, keep).w.log)
    decreases listing
  {
    if listing != [] {
      if listing[0].rk.name in keep {
        PruneStoresNothing(env, w, listing[1..], keep);
      } else {
        var c := ClearResource(env, w, listing[0]);
        if c.reply == Done {
          PruneStoresNothing(env, c.w, listing[1..], keep);
          NoStoresTrans(w.log, c.w.log, Prune(env, c.w, listing[1..], keep).w.log);
        }
      }
    }
  }

  /** A successful pass, taken apart: the loop from the prepared world, then the prune. */
  lemma SyncParts(env: Env, job: Job, w: World, files: seq<seq<Manifest>>, listing: seq<Listed>, claims: set<Claim>)
    returns (p: Pass, q: Pass)
    requires Separate(claims) && Inv(w, claims) && Claimant(job.app, claims)
    requires Within(job.app, Manifests(files), claims)
    requires IsListing(w.ledger, Label(job.app), listing)
    requires CheckSync(env, job, w, files, listing).ok
    ensures p == Pass(w.(clock := p.w.clock), Unknown, {})
    ensures RunItems(env, job, p, Items(files)) == Outcome(q, true)
    ensures Inv(q.w, claims)
    ensures var o := CheckSync(env, job, w, files, listing).p;
            && o.w == Prune(env, q.w, listing, q.updated).w
            && o.status == (if q.status == Unknown then Synced else q.status)
            && SameOff(DroppedKeys(listing, q.updated), q.w.target, o.w.target)
            && DroppedKeys(listing, q.updated) !! Keys(Manifests(files))
            && o.w.target.Keys !! DroppedKeys(listing, q.updated)
    ensures q.updated == Names(job.app, Manifests(files))
    ensures SameOff(Keys(Manifests(files)), w.target, q.w.target)
  {
    var c := Prepare(env, job, w);
    PrepareShape(env, job, w, claims);
    p := Pass(c.w, Unknown, {});
    q := RunItems(env, job, p, Items(files)).p;
    ObjectsOfItems(files);
    RunItemsKeeps(env, job, p, Items(files), claims);
    PruneParts(env, job.app, Manifests(files), p, q, listing, claims);
  }

  lemma PruneParts(env: Env, app: App, ms: seq<Manifest>, p: Pass, q: Pass, listing: seq<Listed>, claims: set<Claim>)
    requires Separate(claims) && Inv(p.w, claims) && Inv(q.w, claims) && Claimant(app, claims)
    requires Within(app, ms, claims) && Advances(app, ms, p, q, true) && p.updated == {}
    requires IsListing(p.w.ledger, Label(app), listing)
    ensures q.updated == Names(app, ms)
    ensures DroppedKeys(listing, q.updated) !! Keys(ms)
    ensures var r := Prune(env, q.w, listing, q.updated);
            && SameOff(DroppedKeys(listing, q.updated), q.w.target, r.w.target)
            && (r.reply == Done ==> r.w.target.Keys !! DroppedKeys(listing, q.updated))
  {
    PruneLeavesExact(env, app, ms, claims, p, q, listing);
    PruneKeeps(env, q.w, app, listing, q.updated, claims);
  }

  lemma InSyncKept(env: Env, ms: seq<Manifest>, keys: set<ObjKey>, t: map<ObjKey, Json>, u: map<ObjKey, Json>)
    requires AllInSync(env, t, ms) && keys !! Keys(ms) && SameOff(keys, t, u)
    ensures AllInSync(env, u, ms)
    ensures forall m | m in ms :: m.key in t && m.key in u && u[m.key] == t[m.key]
  {
    forall m | m in ms
      ensures InSync(env, u, m) && m.key in t && m.key in u && u[m.key] == t[m.key]
    {
      assert InSync(env, t, m) && m.key in Keys(ms);
    }
  }

  /** A successful check reports Synced exactly when every manifest object was live and in
      sync; then the pass created and updated nothing, and its prune left every one of them
      as it was. */
  lemma SyncedMeansInSync(env: Env, job: Job, w: World, files: seq<seq<Manifest>>,
                          listing: seq<Listed>, claims: set<Claim>)
    requires Separate(claims) && Inv(w, claims) && Claimant(job.app, claims)
    requires Within(job.app, Manifests(files), claims)
    requires IsListing(w.ledger, Label(job.app), listing)
    ensures var o := CheckSync(env, job, w, files, listing);
            o.ok ==>
              && o.p.status == (if AllInSync(env, w.target, Manifests(files)) then Synced else OutOfSync)
              && (o.p.status == Synced ==>
                    && NoStores(w.log, o.p.w.log)
                    && AllInSync(env, o.p.w.target, Manifests(files))
                    && forall m | m in Manifests(files) ::
                         m.key in w.target && m.key in o.p.w.target && o.p.w.target[m.key] == w.target[m.key])
  {
    var ms := Manifests(files);
    var o := CheckSync(env, job, w, files, listing);
    if o.ok {
      var p, q := SyncParts(env, job, w, files, listing, claims);
      ObjectsOfItems(files);
      RunItemsStatus(env, job, p, Items(files));
      if AllInSync(env, w.target, ms) {
        PruneStoresNothing(env, q.w, listing, q.updated);
        NoStoresTrans(w.log, q.w.log, o.p.w.log);
        InSyncKept(env, ms, DroppedKeys(listing, q.updated), w.target, o.p.w.target);
      }
    }
  }

  // ---------- the status of every check, failed or not ----------

  /** The object has been recorded, and its comparison with the live one was answered. */
  predicate Answered(env: Env, job: Job, p: Pass, m: Manifest) {
    var r := UpdateRecord(env, p.w, Claim(job.app, m.key));
    r.reply == Done && Compare(env, r.w, p.status, m).verdict != Broken
  }

  /** The manifests a loop gets to compare before it ends or fails. */
  function Compared(env: Env, job: Job, p: Pass, items: seq<Item>): seq<Manifest>
    decreases items
  {
    if items == [] then []
    else
      var o := ItemStep(env, job, p, items[0]);
      (if items[0].Object? && Answered(env, job, p, items[0].m) then [items[0].m] else [])
      + (if o.ok then Compared(env, job, o.p, items[1..]) else [])
  }

  /** The same of a whole check. */
  function ComparedBy(env: Env, job: Job, w: World, files: seq<seq<Manifest>>): seq<Manifest> {
    var c := Prepare(env, job, w);
    if c.reply != Done then [] else Compared(env, job, Pass(c.w, Unknown, {}), Items(files))
  }

  lemma ObjectStepStatusAlways(env: Env, job: Job, p: Pass, m: Manifest)
    ensures var o := ObjectStep(env, job, p, m);
            && (o.ok ==> Answered(env, job, p, m))
            && o.p.status == (if Answered(env, job, p, m) && !InSync(env, p.w.target, m) then OutOfSync else p.status)
            && (o.ok && InSync(env, p.w.target, m) ==> o.p.w.target == p.w.target)
  {
    var r := UpdateRecord(env, p.w, Claim(job.app, m.key));
    CompareMeans(env, r.w, p.status, m);
  }

  lemma {:induction false} OutOfSyncStaysAlways(env: Env, job: Job, p: Pass, items: seq<Item>)
    requires p.status == OutOfSync
    ensures RunItems(env, job, p, items).p.status == OutOfSync
    ensures Compared(env, job, p, items) <= Objects(items)
    ensures RunItems(env, job, p, items).ok ==> Compared(env, job, p, items) == Objects(items)
    decreases items
  {
    if items != [] {
      var o := ItemStep(env, job, p, items[0]);
      if items[0].Object? {
        ObjectStepStatusAlways(env, job, p, items[0].m);
      }
      if o.ok {
        OutOfSyncStaysAlways(env, job, o.p, items[1..]);
      }
    }
  }

  lemma {:induction false} RunItemsStatusAlways(env: Env, job: Job, p: Pass, items: seq<Item>)
    requires p.status == Unknown
    ensures var o := RunItems(env, job, p, items);
            var compared := Compared(env, job, p, items);
            && o.p.status == (if AllInSync(env, p.w.target, compared) then Unknown else OutOfSync)
            && compared <= Objects(items)
            && (o.ok ==> compared == Objects(items))
    decreases items
  {
    if items != [] {
      var o := ItemStep(env, job, p, items[0]);
      var compared := Compared(env, job, p, items);
      if items[0].Object? {
        ObjectStepStatusAlways(env, job, p, items[0].m);
        assert Answered(env, job, p, items[0].m) ==> items[0].m in compared;
      }
      if o.ok && o.p.status == Unknown {
        RunItemsStatusAlways(env, job, o.p, items[1..]);
        assert forall m | m in Compared(env, job, o.p, items[1..]) :: m in compared;
      } else if o.ok {
        OutOfSyncStaysAlways(env, job, o.p, items[1..]);
      }
    }
  }

  /** For every check, failed or not: it reports Synced if and only if it succeeds and every manifest
      was in sync at the start. If it fails the status is OutOfSync if one of those compared before
      the failing call was not in sync, and otherwise Unknown; they are the first so many of the
      manifests, and all of them if the loop came to its end. */
  lemma StatusIff(env: Env, job: Job, w: World, files: seq<seq<Manifest>>, listing: seq<Listed>)
    ensures var o := CheckSync(env, job, w, files, listing);
            var compared := ComparedBy(env, job, w, files);
            && (o.p.status == Synced <==> o.ok && AllInSync(env, w.target, Manifests(files)))
            && (!o.ok ==> o.p.status == if AllInSync(env, w.target, compared) then Unknown else OutOfSync)
            && compared <= Manifests(files)
            && (o.ok ==> compared == Manifests(files))
  {
    var c := Prepare(env, job, w);
    if c.reply == Done {
      ObjectsOfItems(files);
      RunItemsStatusAlways(env, job, Pass(c.w, Unknown, {}), Items(files));
    }
  }

  // ---------- what a pass stores ----------

  function Find(target: map<ObjKey, Json>, key: ObjKey): Found {
    if key in target then Present(target[key]) else Absent
  }

  /** What is to be found under a manifest's key after a pass, given what was live before. */
  function Wanted(env: Env, job: Job, target: map<ObjKey, Json>, m: Manifest): Found {
    if !(job.autoSync || job.forced) || InSync(env, target, m) then Find(target, m.key)
    else if m.key in target then Present(env.norm(Desired(env, target[m.key], m.body)))
    else Present(env.norm(m.body))
  }

  predicate AllWanted(env: Env, job: Job, before: map<ObjKey, Json>, after: map<ObjKey, Json>, ms: seq<Manifest>) {
    forall m | m in ms :: Find(after, m.key) == Wanted(env, job, before, m)
  }

  lemma ObjectStepStores(env: Env, job: Job, p: Pass, m: Manifest)
    ensures var o := ObjectStep(env, job, p, m);
            o.ok ==> Find(o.p.w.target, m.key) == Wanted(env, job, p.w.target, m)
  {
    var r := UpdateRecord(env, p.w, Claim(job.app, m.key));
    CompareMeans(env, r.w, p.status, m);
    CompareShape(env, r.w, p.status, m);
  }

  lemma HeadStores(env: Env, job: Job, p: Pass, item: Item)
    ensures var o := ItemStep(env, job, p, item);
            o.ok ==> AllWanted(env, job, p.w.target, o.p.w.target, Objects([item]))
  {
    if item.Object? {
      assert Objects([item]) == [item.m];
      ObjectStepStores(env, job, p, item.m);
    }
  }

  /** Objects that are not named by `keys` are wanted the same, and found the same. */
  lemma WantedKept(env: Env, job: Job, keys: set<ObjKey>, t: map<ObjKey, Json>, u: map<ObjKey, Json>,
                   other: map<ObjKey, Json>, ms: seq<Manifest>)
    requires keys !! Keys(ms) && SameOff(keys, t, u)
    ensures AllWanted(env, job, t, other, ms) <==> AllWanted(env, job, u, other, ms)
    ensures AllWanted(env, job, other, t, ms) <==> AllWanted(env, job, other, u, ms)
  {
    forall m | m in ms
      ensures Wanted(env, job, t, m) == Wanted(env, job, u, m) && Find(t, m.key) == Find(u, m.key)
    {
      assert m.key in Keys(ms);
    }
  }

  lemma {:induction false} RunItemsStores(env: Env, job: Job, p: Pass, items: seq<Item>, claims: set<Claim>)
    requires Separate(claims) && Inv(p.w, claims) && Within(job.app, Objects(items), claims)
    requires Distinct(Objects(items))
    ensures var o := RunItems(env, job, p, items);
            o.ok ==> AllWanted(env, job, p.w.target, o.p.w.target, Objects(items))
    decreases items
  {
    var o := RunItems(env, job, p, items);
    if items != [] && o.ok {
      var head, rest := Objects([items[0]]), Objects(items[1..]);
      assert items == [items[0]] + items[1..];
      ObjectsOfConcat([items[0]], items[1..]);
      var first := ItemStep(env, job, p, items[0]);
      ItemStepKeeps(env, job, p, items[0], claims);
      DistinctParts(head, rest);
      RunItemsStores(env, job, first.p, items[1..], claims);
      HeadStores(env, job, p, items[0]);
      assert SameOff(Keys(rest), first.p.w.target, o.p.w.target) by {
        RunItemsKeeps(env, job, first.p, items[1..], claims);
      }
      WantedKept(env, job, Keys(rest), first.p.w.target, o.p.w.target, p.w.target, head);
      WantedKept(env, job, Keys(head), p.w.target, first.p.w.target, o.p.w.target, rest);
    }
  }

  lemma DistinctParts(a: seq<Manifest>, b: seq<Manifest>)
    requires Distinct(a + b)
    ensures Distinct(b) && Keys(a) !! Keys(b)
  {
    assert forall i | 0 <= i < |b| :: b[i] == (a + b)[|a| + i];
    assert forall i | 0 <= i < |a| :: a[i] == (a + b)[i];
  }

  /** What the application had on record that the manifests no longer name. */
  function StaleKeys(app: App, ms: seq<Manifest>, ledger: map<RecKey, Record>): set<ObjKey> {
    set rk | rk in ledger && ledger[rk].labelValue == Label(app) && rk !in Rks(app, ms) :: ledger[rk].spec
  }

  /** The whole effect of a successful pass over distinct manifests on the target cluster: each
      manifest's object is what is wanted, given what was live before; what the application
      had on record beyond them is gone; everything else is as it was. */
  lemma SyncStores(env: Env, job: Job, w: World, files: seq<seq<Manifest>>, listing: seq<Listed>, claims: set<Claim>)
    requires Separate(claims) && Inv(w, claims) && Claimant(job.app, claims)
    requires Within(job.app, Manifests(files), claims)
    requires IsListing(w.ledger, Label(job.app), listing)
    requires Distinct(Manifests(files))
    ensures var o := CheckSync(env, job, w, files, listing);
            var stale := StaleKeys(job.app, Manifests(files), w.ledger);
            o.ok ==>
              && AllWanted(env, job, w.target, o.p.w.target, Manifests(files))
              && o.p.w.target.Keys !! stale
              && SameOff(Keys(Manifests(files)) + stale, w.target, o.p.w.target)
  {
    var ms := Manifests(files);
    var o := CheckSync(env, job, w, files, listing);
    if o.ok {
      var p, q := SyncParts(env, job, w, files, listing, claims);
      ObjectsOfItems(files);
      RunItemsStores(env, job, p, Items(files), claims);
      WantedKept(env, job, DroppedKeys(listing, q.updated), q.w.target, o.p.w.target, w.target, ms);
      StaleAreDropped(job.app, ms, w, q.updated, listing, claims);
    }
  }

  lemma StaleAreDropped(app: App, ms: seq<Manifest>, w: World, seen: set<string>, listing: seq<Listed>,
                        claims: set<Claim>)
    requires LedgerInv(w.ledger, claims) && Claimant(app, claims) && Within(app, ms, claims)
    requires IsListing(w.ledger, Label(app), listing) && seen == Names(app, ms)
    ensures DroppedKeys(listing, seen) == StaleKeys(app, ms, w.ledger)
  {
    ListingIsFor(w, app, claims, listing);
    forall l | l in listing
      ensures Holds(w.ledger, Label(app), l) && (l.rk in Rks(app, ms) <==> l.rk.name in Names(app, ms))
    {
      var i :| 0 <= i < |listing| && listing[i] == l;
      assert Owned(claims, l.rk, Claim(app, l.rec.spec));
      if m :| m in ms && RecordName(app, m.key) == l.rk.name {
        assert Rk(Claim(app, m.key)) == l.rk;
      }
    }
    forall rk | rk in w.ledger && w.ledger[rk].labelValue == Label(app)
      ensures Listed(rk, w.ledger[rk]) in listing
    {
    }
  }

  /** With a server that stores what it is given and text that tells all trees apart, an
      applying pass leaves each object the merge of its manifest into what was live, so that
      the laws of the merge say what is forced and what is kept; what was missing is created
      as the manifest has it. */
  lemma SyncMerges(env: Env, job: Job, w: World, files: seq<seq<Manifest>>, listing: seq<Listed>, claims: set<Claim>)
    requires Separate(claims) && Inv(w, claims) && Claimant(job.app, claims)
    requires Within(job.app, Manifests(files), claims)
    requires IsListing(w.ledger, Label(job.app), listing)
    requires Distinct(Manifests(files)) && Applies(job)
    requires forall x :: env.norm(x) == x
    requires forall x, y | env.render(x) == env.render(y) :: x == y
    ensures var o := CheckSync(env, job, w, files, listing);
            o.ok ==> forall m | m in Manifests(files) ::
              Find(o.p.w.target, m.key)
              == Present(if m.key in w.target then Merge(w.target[m.key], m.body) else m.body)
  {
    SyncStores(env, job, w, files, listing, claims);
  }

  // ---------- coming to rest ----------

  /** Normalising twice is the same as normalising once. */
  ghost predicate Idempotent(env: Env) {
    forall x :: env.norm(env.norm(x)) == env.norm(x)
  }

  /** What a merge would leave alone as given, it leaves alone as stored, as far as print tells. */
  ghost predicate Settled(env: Env, x: Json, patch: Json) {
    Merge(x, patch) == x ==> env.render(env.norm(Merge(env.norm(x), patch))) == env.render(env.norm(x))
  }

  /** What is asked of the server's normaliser, for the manifests in hand. It may fill members in
      from constants or from one another. */
  ghost predicate Lawful(env: Env, ms: seq<Manifest>) {
    Idempotent(env) && forall x, m | m in ms :: Settled(env, x, m.body)
  }

  /** What is stored once the manifest is merged into the live object prints like its own merge. */
  ghost predicate Stays(env: Env, live: Json, patch: Json) {
    var stored := Desired(env, live, patch);
    env.render(stored) == env.render(Desired(env, stored, patch))
  }

  /** No less will do: an idempotent server is lawful for some manifests exactly when, whatever is
      live, what merging one of them has stored is left alone by the next merge. */
  lemma LawfulIff(env: Env, ms: seq<Manifest>)
    requires Idempotent(env)
    ensures Lawful(env, ms) <==> forall live, m | m in ms :: Stays(env, live, m.body)
  {
    if Lawful(env, ms) {
      forall live, m | m in ms
        ensures Stays(env, live, m.body)
      {
        MergeIdempotent(live, m.body);
        assert Settled(env, Merge(live, m.body), m.body);
      }
    } else {
      var x, m :| m in ms && !Settled(env, x, m.body);
      assert !Stays(env, x, m.body);
    }
  }

  /** A server that fills in one member from another where it is missing. */
  function FillFrom(j: Json, from: string, into: string): Json {
    if j.Obj? && from in j.members && into !in j.members then Obj(j.members[into := j.members[from]]) else j
  }

  lemma FillMerge(x: Json, patch: Json, from: string, into: string)
    requires Merge(x, patch) == x && from != into
    ensures FillFrom(Merge(FillFrom(x, from, into), patch), from, into) == FillFrom(x, from, into)
  {
    var filled := FillFrom(x, from, into);
    if filled != x {
      var merged := Merge(filled, patch);
      if Deletes(patch, into) {
        assert merged.members == x.members;
      } else {
        assert into !in patch.members;
        assert merged.members == filled.members;
      }
    }
  }

  /** Filling one member in from another is lawful, however trees print. */
  lemma FillingIsLawful(env: Env, ms: seq<Manifest>, from: string, into: string)
    requires from != into && forall x :: env.norm(x) == FillFrom(x, from, into)
    ensures Lawful(env, ms)
  {
    forall x, m | m in ms
      ensures Settled(env, x, m.body)
    {
      if Merge(x, m.body) == x {
        FillMerge(x, m.body, from, into);
      }
    }
  }

  predicate Distinct(ms: seq<Manifest>) {
    forall i, j | 0 <= i < j < |ms| :: ms[i].key != ms[j].key
  }

  /** The object the server stores for a manifest where none was live is in sync with it. */
  predicate CreatedInSync(env: Env, m: Manifest) {
    InSync(env, map[m.key := env.norm(m.body)], m)
  }

  /** The null-free are, with any lawful server. Where the server stores what it is given and print
      tells all trees apart, no others are. */
  lemma CreatedInSyncIff(env: Env, m: Manifest)
    ensures Lawful(env, [m]) && NullFree(m.body) ==> CreatedInSync(env, m)
    ensures (forall x :: env.norm(x) == x) && (forall x, y | env.render(x) == env.render(y) :: x == y)
        ==> (CreatedInSync(env, m) <==> NullFree(m.body))
  {
    MergeIntoSelf(m.body);
    assert m in [m];
    assert Lawful(env, [m]) ==> Settled(env, m.body, m.body);
  }

  /** Once what is wanted of a manifest is stored, it is in sync exactly if its object was live
      before, or comes out in sync when created. */
  lemma WantedInSyncIff(env: Env, job: Job, before: map<ObjKey, Json>, after: map<ObjKey, Json>, m: Manifest)
    requires Lawful(env, [m]) && Applies(job)
    requires Find(after, m.key) == Wanted(env, job, before, m)
    ensures InSync(env, after, m) <==> m.key in before || CreatedInSync(env, m)
  {
    assert m in [m];
    if m.key in before && !InSync(env, before, m) {
      var merged := Merge(before[m.key], m.body);
      assert after[m.key] == env.norm(env.norm(merged)) == env.norm(merged);
      MergeIdempotent(before[m.key], m.body);
      assert Settled(env, merged, m.body);
    }
  }

  /** The manifest is null-free, or its object is live. */
  predicate Settles(target: map<ObjKey, Json>, m: Manifest) {
    NullFree(m.body) || m.key in target
  }

  lemma ObjectStepSettles(env: Env, job: Job, p: Pass, m: Manifest)
    requires Lawful(env, [m]) && Applies(job) && Settles(p.w.target, m)
    ensures var o := ObjectStep(env, job, p, m);
            o.ok ==> InSync(env, o.p.w.target, m)
  {
    var o := ObjectStep(env, job, p, m);
    if o.ok {
      ObjectStepStores(env, job, p, m);
      WantedInSyncIff(env, job, p.w.target, o.p.w.target, m);
      CreatedInSyncIff(env, m);
    }
  }

  /** After a successful applying pass over distinct manifests everything is live; and everything
      is in sync if and only if each object was live before or comes out in sync when created. */
  lemma AppliedInSyncIff(env: Env, job: Job, w: World, files: seq<seq<Manifest>>, listing: seq<Listed>,
                         claims: set<Claim>)
    requires Separate(claims) && Inv(w, claims) && Claimant(job.app, claims)
    requires Within(job.app, Manifests(files), claims)
    requires IsListing(w.ledger, Label(job.app), listing)
    requires Lawful(env, Manifests(files)) && Applies(job) && Distinct(Manifests(files))
    requires CheckSync(env, job, w, files, listing).ok
    ensures var v := CheckSync(env, job, w, files, listing).p.w;
            && Keys(Manifests(files)) <= v.target.Keys
            && (AllInSync(env, v.target, Manifests(files))
                <==> forall m | m in Manifests(files) :: m.key in w.target || CreatedInSync(env, m))
  {
    var v := CheckSync(env, job, w, files, listing).p.w;
    SyncStores(env, job, w, files, listing, claims);
    forall m | m in Manifests(files)
      ensures m.key in v.target
      ensures InSync(env, v.target, m) <==> m.key in w.target || CreatedInSync(env, m)
    {
      assert Find(v.target, m.key) == Wanted(env, job, w.target, m);
      WantedInSyncIff(env, job, w.target, v.target, m);
    }
  }

  /** With a server that stores what it is given and text that tells all trees apart: after a
      successful applying pass over distinct manifests everything is in sync if and only if each
      manifest is null-free or its object was live before. */
  lemma SettlesIff(env: Env, job: Job, w: World, files: seq<seq<Manifest>>, listing: seq<Listed>, claims: set<Claim>)
    requires Separate(claims) && Inv(w, claims) && Claimant(job.app, claims)
    requires Within(job.app, Manifests(files), claims)
    requires IsListing(w.ledger, Label(job.app), listing)
    requires Applies(job) && Distinct(Manifests(files))
    requires forall x :: env.norm(x) == x
    requires forall x, y | env.render(x) == env.render(y) :: x == y
    requires CheckSync(env, job, w, files, listing).ok
    ensures AllInSync(env, CheckSync(env, job, w, files, listing).p.w.target, Manifests(files))
       <==> forall m | m in Manifests(files) :: Settles(w.target, m)
  {
    AppliedInSyncIff(env, job, w, files, listing, claims);
    forall m | m in Manifests(files)
      ensures CreatedInSync(env, m) <==> NullFree(m.body)
    {
      CreatedInSyncIff(env, m);
    }
  }

  /** With any lawful server that much is enough. */
  lemma ApplySettles(env: Env, job: Job, w: World, files: seq<seq<Manifest>>, listing: seq<Listed>, claims: set<Claim>)
    requires Separate(claims) && Inv(w, claims) && Claimant(job.app, claims)
    requires Within(job.app, Manifests(files), claims)
    requires IsListing(w.ledger, Label(job.app), listing)
    requires Lawful(env, Manifests(files)) && Applies(job) && Distinct(Manifests(files))
    requires forall m | m in Manifests(files) :: Settles(w.target, m)
    requires CheckSync(env, job, w, files, listing).ok
    ensures AllInSync(env, CheckSync(env, job, w, files, listing).p.w.target, Manifests(files))
  {
    AppliedInSyncIff(env, job, w, files, listing, claims);
    forall m | m in Manifests(files)
      ensures m.key in w.target || CreatedInSync(env, m)
    {
      CreatedInSyncIff(env, m);
    }
  }

  lemma ItemStepIdle(env: Env, job: Job, p: Pass, item: Item)
    requires AllInSync(env, p.w.target, Objects([item]))
    requires Rks(job.app, Objects([item])) <= p.w.ledger.Keys
    ensures var o := ItemStep(env, job, p, item);
            && o.p.w == p.w.(clock := o.p.w.clock)
            && (o.ok ==> o.p.updated == p.updated + Names(job.app, Objects([item])))
  {
    if item.Object? {
      assert Objects([item]) == [item.m] && item.m in Objects([item]);
      assert Rks(job.app, [item.m]) == {Rk(Claim(job.app, item.m.key))};
      assert Names(job.app, [item.m]) == {RecordName(job.app, item.m.key)};
      ObjectStepStatus(env, job, p, item.m);
    }
  }

  lemma {:induction false} RunItemsIdle(env: Env, job: Job, p: Pass, items: seq<Item>)
    requires AllInSync(env, p.w.target, Objects(items))
    requires Rks(job.app, Objects(items)) <= p.w.ledger.Keys
    ensures var o := RunItems(env, job, p, items);
            && o.p.w == p.w.(clock := o.p.w.clock)
            && (o.ok ==> o.p.updated == p.updated + Names(job.app, Objects(items)))
    decreases items
  {
    if items != [] {
      var head, rest := Objects([items[0]]), Objects(items[1..]);
      assert items == [items[0]] + items[1..];
      ObjectsOfConcat([items[0]], items[1..]);
      SetsOfConcat(job.app, head, rest);
      assert forall m | m in head || m in rest :: m in Objects(items);
      ItemStepIdle(env, job, p, items[0]);
      var first := ItemStep(env, job, p, items[0]);
      if first.ok {
        RunItemsIdle(env, job, first.p, items[1..]);
      }
    }
  }

  lemma {:induction false} PruneNothing(env: Env, w: World, listing: seq<Listed>, keep: set<string>)
    requires forall l | l in listing :: l.rk.name in keep
    ensures Prune(env, w, listing, keep) == Call(w, Done)
    decreases listing
  {
    if listing != [] {
      assert listing[0] in listing;
      PruneNothing(env, w, listing[1..], keep);
    }
  }

  /** A check of manifests that are all in sync and exactly recorded persists nothing. */
  lemma Rests(env: Env, job: Job, w: World, files: seq<seq<Manifest>>, listing: seq<Listed>, claims: set<Claim>)
    requires Separate(claims) && Inv(w, claims) && Claimant(job.app, claims)
    requires Within(job.app, Manifests(files), claims)
    requires IsListing(w.ledger, Label(job.app), listing)
    requires ExactLedger(job.app, Manifests(files), w.ledger)
    requires AllInSync(env, w.target, Manifests(files))
    ensures var o := CheckSync(env, job, w, files, listing);
            o.p.w == w.(clock := o.p.w.clock) && (o.ok ==> o.p.status == Synced)
  {
    SyncedMeansInSync(env, job, w, files, listing, claims);
    PrepareShape(env, job, w, claims);
    var p := Pass(Prepare(env, job, w).w, Unknown, {});
    var q := RunItems(env, job, p, Items(files));
    ObjectsOfItems(files);
    RunItemsIdle(env, job, p, Items(files));
    if q.ok {
      ListedNames(job.app, Manifests(files), w, listing);
      PruneNothing(env, q.p.w, listing, q.p.updated);
    }
  }

  lemma ListedNames(app: App, ms: seq<Manifest>, w: World, listing: seq<Listed>)
    requires IsListing(w.ledger, Label(app), listing) && ExactLedger(app, ms, w.ledger)
    ensures forall l | l in listing :: l.rk.name in Names(app, ms)
  {
    forall l | l in listing
      ensures l.rk.name in Names(app, ms)
    {
      var i :| 0 <= i < |listing| && listing[i] == l;
      assert Holds(w.ledger, Label(app), l);
      assert l.rk in Rks(app, ms);
    }
  }

  /** Convergence: once a pass has applied distinct manifests, each null-free or of an object that
      was live, another check of the same manifests, however it is triggered, persists nothing at
      all, even if it is cut short by a failing call; and if it completes it reports Synced. */
  lemma Converges(env: Env, job: Job, w: World, files: seq<seq<Manifest>>, listing: seq<Listed>,
                  again: Job, relisting: seq<Listed>, claims: set<Claim>)
    requires Separate(claims) && Inv(w, claims) && Claimant(job.app, claims)
    requires Within(job.app, Manifests(files), claims)
    requires IsListing(w.ledger, Label(job.app), listing)
    requires Lawful(env, Manifests(files)) && Applies(job) && Distinct(Manifests(files))
    requires forall m | m in Manifests(files) :: Settles(w.target, m)
    requires CheckSync(env, job, w, files, listing).ok
    requires again.app == job.app
    requires IsListing(CheckSync(env, job, w, files, listing).p.w.ledger, Label(job.app), relisting)
    ensures var v := CheckSync(env, job, w, files, listing).p.w;
            var second := CheckSync(env, again, v, files, relisting);
            && second.p.w == v.(clock := second.p.w.clock)
            && (second.ok ==> second.p.status == Synced)
  {
    SyncKeeps(env, job, w, Unknown, files, listing, claims);
    ApplySettles(env, job, w, files, listing, claims);
    Rests(env, again, CheckSync(env, job, w, files, listing).p.w, files, relisting, claims);
  }

  /** Nulls or not, two successful applying passes are enough, because everything is live after
      the first: a third check persists nothing and, if it completes, reports Synced. */
  lemma ConvergesByTheThird(env: Env, job: Job, w: World, files: seq<seq<Manifest>>, listing: seq<Listed>,
                            job2: Job, listing2: seq<Listed>, again: Job, listing3: seq<Listed>, claims: set<Claim>)
    requires Separate(claims) && Inv(w, claims) && Claimant(job.app, claims)
    requires Within(job.app, Manifests(files), claims)
    requires Lawful(env, Manifests(files)) && Distinct(Manifests(files))
    requires Applies(job) && Applies(job2) && job2.app == job.app == again.app
    requires IsListing(w.ledger, Label(job.app), listing) && CheckSync(env, job, w, files, listing).ok
    requires var v := CheckSync(env, job, w, files, listing).p.w;
             && IsListing(v.ledger, Label(job.app), listing2)
             && CheckSync(env, job2, v, files, listing2).ok
             && IsListing(CheckSync(env, job2, v, files, listing2).p.w.ledger, Label(job.app), listing3)
    ensures var v := CheckSync(env, job, w, files, listing).p.w;
            var u := CheckSync(env, job2, v, files, listing2).p.w;
            var third := CheckSync(env, again, u, files, listing3);
            && third.p.w == u.(clock := third.p.w.clock)
            && (third.ok ==> third.p.status == Synced)
  {
    var v := CheckSync(env, job, w, files, listing).p.w;
    SyncKeeps(env, job, w, Unknown, files, listing, claims);
    AppliedInSyncIff(env, job, w, files, listing, claims);
    forall m | m in Manifests(files)
      ensures Settles(v.target, m)
    {
      assert m.key in Keys(Manifests(files));
    }
    Converges(env, job2, v, files, listing2, again, listing3, claims);
  }

  /** Why manifests must be distinct: where the server stores what it is given and print tells all
      trees apart, no object is ever in sync with two manifests that force different values. */
  lemma ConflictNeverInSync(env: Env, target: map<ObjKey, Json>, m: Manifest, n: Manifest, path: seq<string>)
    requires forall x :: env.norm(x) == x
    requires forall x, y | env.render(x) == env.render(y) :: x == y
    requires m.key == n.key
    requires Forces(m.body, path) && Forces(n.body, path) && Lookup(m.body, path) != Lookup(n.body, path)
    ensures !(InSync(env, target, m) && InSync(env, target, n))
  {
    if InSync(env, target, m) && InSync(env, target, n) {
      MergeForces(target[m.key], m.body, path);
      MergeForces(target[n.key], n.body, path);
      assert false;
    }
  }
}
