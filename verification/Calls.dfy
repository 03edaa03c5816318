/** How many calls a pass that succeeds makes: each object costs what its record, its live
    counterpart and its difference make necessary, each stale record what its object does, and
    nothing else is asked. Over `Safety` these counts leave a pass no call to skip or repeat. */
module Calls {
  import opened Collections
  import opened Json
  import opened Ledger
  import opened Cluster
  import opened Reconcile
  import opened Safety
  import opened Drift
  import H = Helm

  // ---------- the loop over manifests ----------

  /** Looking for the record, and creating it if there is none; looking for the object, and asking
      what an update would store if it is live; and storing it if that is called for. */
  function ObjectCalls(env: Env, job: Job, ledger: map<RecKey, Record>, target: map<ObjKey, Json>, m: Manifest): nat {
    1 + (if Rk(Claim(job.app, m.key)) in ledger then 0 else 1)
    + 1 + (if m.key in target then 1 else 0)
    + (if (job.autoSync || job.forced) && !InSync(env, target, m) then 1 else 0)
  }

  function ManifestCalls(env: Env, job: Job, ledger: map<RecKey, Record>, target: map<ObjKey, Json>,
                         ms: seq<Manifest>): nat {
    if ms == [] then 0
    else ObjectCalls(env, job, ledger, target, ms[0]) + ManifestCalls(env, job, ledger, target, ms[1..])
  }

  lemma {:induction false} ManifestCallsConcat(env: Env, job: Job, ledger: map<RecKey, Record>,
                                               target: map<ObjKey, Json>, a: seq<Manifest>, b: seq<Manifest>)
    ensures ManifestCalls(env, job, ledger, target, a + b)
         == ManifestCalls(env, job, ledger, target, a) + ManifestCalls(env, job, ledger, target, b)
  {
    if a == [] {
      assert a + b == b;
    } else {
      ConcatTail(a, b);
      ManifestCallsConcat(env, job, ledger, target, a[1..], b);
    }
  }

  lemma ObjectStepCalls(env: Env, job: Job, p: Pass, m: Manifest)
    ensures var o := ObjectStep(env, job, p, m);
            o.ok ==> o.p.w.clock == p.w.clock + ObjectCalls(env, job, p.w.ledger, p.w.target, m)
  {
    var r := UpdateRecord(env, p.w, Claim(job.app, m.key));
    CompareMeans(env, r.w, p.status, m);
    CompareShape(env, r.w, p.status, m);
  }

  function FileCount(items: seq<Item>): nat {
    if items == [] then 0 else (if items[0].File? then 1 else 0) + FileCount(items[1..])
  }

  lemma {:induction false} FileCountConcat(a: seq<Item>, b: seq<Item>)
    ensures FileCount(a + b) == FileCount(a) + FileCount(b)
  {
    if a == [] {
      assert a + b == b;
    } else {
      ConcatTail(a, b);
      FileCountConcat(a[1..], b);
    }
  }

  lemma {:induction false} NoFilesAmong(ms: seq<Manifest>)
    ensures FileCount(ObjectItems(ms)) == 0
  {
    if ms != [] {
      assert ObjectItems(ms)[1..] == ObjectItems(ms[1..]);
      NoFilesAmong(ms[1..]);
    }
  }

  lemma {:induction false} FilesOfItems(files: seq<seq<Manifest>>)
    ensures FileCount(Items(files)) == |files|
  {
    if files != [] {
      FilesOfItems(files[1..]);
      NoFilesAmong(files[0]);
      FileCountConcat([File] + ObjectItems(files[0]), Items(files[1..]));
      FileCountConcat([File], ObjectItems(files[0]));
    }
  }

  /** Both stores answer the same for this manifest. */
  predicate SameFor(app: App, l: map<RecKey, Record>, t: map<ObjKey, Json>,
                    l': map<RecKey, Record>, t': map<ObjKey, Json>, m: Manifest) {
    (Rk(Claim(app, m.key)) in l <==> Rk(Claim(app, m.key)) in l') && Find(t, m.key) == Find(t', m.key)
  }

  lemma {:induction false} ManifestCallsKept(env: Env, job: Job, l: map<RecKey, Record>, t: map<ObjKey, Json>,
                                             l': map<RecKey, Record>, t': map<ObjKey, Json>, ms: seq<Manifest>)
    requires forall m | m in ms :: SameFor(job.app, l, t, l', t', m)
    ensures ManifestCalls(env, job, l, t, ms) == ManifestCalls(env, job, l', t', ms)
  {
    if ms != [] {
      assert SameFor(job.app, l, t, l', t', ms[0]);
      ManifestCallsKept(env, job, l, t, l', t', ms[1..]);
    }
  }

  /** Handling some manifests makes no difference to the calls for others. */
  lemma OthersSame(app: App, head: seq<Manifest>, rest: seq<Manifest>, p: Pass, q: Pass, claims: set<Claim>)
    requires Separate(claims) && Within(app, head, claims) && Within(app, rest, claims)
    requires Advances(app, head, p, q, true) && Keys(head) !! Keys(rest)
    ensures forall m | m in rest :: SameFor(app, p.w.ledger, p.w.target, q.w.ledger, q.w.target, m)
  {
    forall m | m in rest
      ensures SameFor(app, p.w.ledger, p.w.target, q.w.ledger, q.w.target, m)
    {
      assert m.key in Keys(rest);
      RecordedIffNamed(app, head, claims, Claim(app, m.key));
    }
  }

  lemma ItemStepCalls(env: Env, job: Job, p: Pass, item: Item)
    ensures var o := ItemStep(env, job, p, item);
            o.ok ==> o.p.w.clock == p.w.clock + FileCount([item])
                                    + ManifestCalls(env, job, p.w.ledger, p.w.target, Objects([item]))
  {
    assert [item][1..] == [];
    if item.Object? {
      ObjectStepCalls(env, job, p, item.m);
      assert Objects([item]) == [item.m] && [item.m][1..] == [];
    }
  }

  lemma {:induction false} RunItemsCalls(env: Env, job: Job, p: Pass, items: seq<Item>, claims: set<Claim>)
    requires Separate(claims) && Inv(p.w, claims) && Within(job.app, Objects(items), claims)
    requires Distinct(Objects(items))
    ensures var o := RunItems(env, job, p, items);
            o.ok ==> o.p.w.clock == p.w.clock + FileCount(items)
                                    + ManifestCalls(env, job, p.w.ledger, p.w.target, Objects(items))
    decreases items
  {
    if items != [] {
      var head, rest := Objects([items[0]]), Objects(items[1..]);
      assert items == [items[0]] + items[1..];
      ObjectsOfConcat([items[0]], items[1..]);
      FileCountConcat([items[0]], items[1..]);
      var o := ItemStep(env, job, p, items[0]);
      ItemStepCalls(env, job, p, items[0]);
      if o.ok {
        ItemStepKeeps(env, job, p, items[0], claims);
        DistinctParts(head, rest);
        OthersSame(job.app, head, rest, p, o.p, claims);
        RunItemsCalls(env, job, o.p, items[1..], claims);
        ManifestCallsKept(env, job, p.w.ledger, p.w.target, o.p.w.ledger, o.p.w.target, rest);
        ManifestCallsConcat(env, job, p.w.ledger, p.w.target, head, rest);
      }
    }
  }

  // ---------- pruning ----------

  /** For each stale record its removal, a look for its object, and the deletion of that if live. */
  function StaleCalls(target: map<ObjKey, Json>, listing: seq<Listed>, keep: set<string>): nat {
    if listing == [] then 0
    else (if listing[0].rk.name in keep then 0 else if listing[0].rec.spec in target then 3 else 2)
         + StaleCalls(target, listing[1..], keep)
  }

  lemma {:induction false} StaleCallsKept(t: map<ObjKey, Json>, u: map<ObjKey, Json>, listing: seq<Listed>,
                                          keep: set<string>)
    requires forall l | l in listing && l.rk.name !in keep :: l.rec.spec in t <==> l.rec.spec in u
    ensures StaleCalls(t, listing, keep) == StaleCalls(u, listing, keep)
  {
    if listing != [] {
      assert listing[0] in listing;
      StaleCallsKept(t, u, listing[1..], keep);
    }
  }

  /** No two listed records name one object. */
  lemma ListedSpecsDiffer(w: World, app: App, claims: set<Claim>, listing: seq<Listed>)
    requires ListedFor(w, app, claims, listing) && listing != []
    ensures forall l | l in listing[1..] :: l.rec.spec != listing[0].rec.spec
  {
    forall l | l in listing[1..]
      ensures l.rec.spec != listing[0].rec.spec
    {
      var i :| 0 <= i < |listing[1..]| && listing[1..][i] == l;
      assert listing[i + 1] == l && listing[0].rk != listing[i + 1].rk;
    }
  }

  lemma {:induction false} PruneCalls(env: Env, w: World, app: App, listing: seq<Listed>, keep: set<string>,
                                      claims: set<Claim>)
    requires Separate(claims) && Inv(w, claims) && ListedFor(w, app, claims, listing)
    ensures var r := Prune(env, w, listing, keep);
            r.reply == Done ==> r.w.clock == w.clock + StaleCalls(w.target, listing, keep)
    decreases listing
  {
    if listing != [] {
      var rest := listing[1..];
      if listing[0].rk.name in keep {
        ListedForRest(w, w, app, claims, listing);
        PruneCalls(env, w, app, rest, keep, claims);
      } else {
        ClearFirst(env, w, app, listing, claims);
        var c := ClearResource(env, w, listing[0]);
        if c.reply == Done {
          assert Holds(w.ledger, Label(app), listing[0]);
          ClearResourceShape(env, w, listing[0]);
          PruneCalls(env, c.w, app, rest, keep, claims);
          ListedSpecsDiffer(w, app, claims, listing);
          StaleCallsKept(w.target, c.w.target, rest, keep);
        }
      }
    }
  }

  // ---------- whole passes ----------

  /** Pruning by the listing taken before the loop, in terms of the target as it was then. */
  lemma PruneAfterCalls(env: Env, app: App, ms: seq<Manifest>, claims: set<Claim>, p: Pass, q: Pass,
                        listing: seq<Listed>)
    requires Separate(claims) && Within(app, ms, claims) && Inv(p.w, claims) && Inv(q.w, claims)
    requires Advances(app, ms, p, q, true) && p.updated == {}
    requires Claimant(app, claims) && IsListing(p.w.ledger, Label(app), listing)
    ensures var r := Prune(env, q.w, listing, q.updated);
            r.reply == Done ==> r.w.clock == q.w.clock + StaleCalls(p.w.target, listing, Names(app, ms))
  {
    PruneLeavesExact(env, app, ms, claims, p, q, listing);
    PruneCalls(env, q.w, app, listing, q.updated, claims);
    assert q.updated == Names(app, ms);
    forall l | l in listing && l.rk.name !in q.updated
      ensures l.rec.spec in p.w.target <==> l.rec.spec in q.w.target
    {
      assert l.rec.spec in DroppedKeys(listing, q.updated);
    }
    StaleCallsKept(p.w.target, q.w.target, listing, q.updated);
  }

  lemma PrepareCalls(env: Env, job: Job, w: World)
    ensures var c := Prepare(env, job, w);
            c.reply == Done ==> c.w == w.(clock := w.clock + (if job.remote then 3 else 2))
  {
  }

  /** A check over distinct manifests that succeeds makes exactly so many calls. */
  lemma CheckCalls(env: Env, job: Job, w: World, files: seq<seq<Manifest>>, listing: seq<Listed>, claims: set<Claim>)
    requires Separate(claims) && Inv(w, claims) && Claimant(job.app, claims)
    requires Within(job.app, Manifests(files), claims) && Distinct(Manifests(files))
    requires IsListing(w.ledger, Label(job.app), listing)
    ensures var o := CheckSync(env, job, w, files, listing);
            o.ok ==>
              o.p.w.clock == w.clock + (if job.remote then 3 else 2) + |files|
                             + ManifestCalls(env, job, w.ledger, w.target, Manifests(files))
                             + StaleCalls(w.target, listing, Names(job.app, Manifests(files)))
  {
    var o := CheckSync(env, job, w, files, listing);
    if o.ok {
      PrepareCalls(env, job, w);
      var p := Pass(Prepare(env, job, w).w, Unknown, {});
      var q := RunItems(env, job, p, Items(files)).p;
      assert o.p.w == Prune(env, q.w, listing, q.updated).w;
      ObjectsOfItems(files);
      FilesOfItems(files);
      RunItemsCalls(env, job, p, Items(files), claims);
      RunItemsKeeps(env, job, p, Items(files), claims);
      PruneAfterCalls(env, job.app, Manifests(files), claims, p, q, listing);
    }
  }

  lemma ClearCalls(env: Env, job: Job, w: World, listing: seq<Listed>, claims: set<Claim>)
    requires Separate(claims) && Inv(w, claims) && Claimant(job.app, claims)
    requires IsListing(w.ledger, Label(job.app), listing)
    ensures var r := Clear(env, job, w, listing);
            r.reply == Done ==>
              r.w.clock == w.clock + (if job.remote then 2 else 1) + StaleCalls(w.target, listing, {})
  {
    var c0 := SetTarget(env, job, w);
    if c0.reply == Done {
      var c1 := Fetch(env, c0.w);
      ListingIsFor(c1.w, job.app, claims, listing);
      PruneCalls(env, c1.w, job.app, listing, {}, claims);
    }
  }

  // ---------- Helm ----------

  /** Converting each document, and for one that holds an object setting the client and decoding. */
  function DecodeCalls(docs: seq<H.Document>): nat {
    if docs == [] then 0 else (if docs[0].Blank? then 1 else 3) + DecodeCalls(docs[1..])
  }

  lemma {:induction false} DecodeAllCalls(env: Env, w: World, docs: seq<H.Document>)
    ensures var c := H.DecodeAll(env, w, docs);
            c.reply == Done ==> c.w.clock == w.clock + DecodeCalls(docs)
    decreases docs
  {
    if docs != [] {
      DecodeAllCalls(env, H.DecodeOne(env, w, docs[0]).w, docs[1..]);
    }
  }

  function RecordCalls(app: App, ledger: map<RecKey, Record>, ms: seq<Manifest>): nat {
    if ms == [] then 0
    else (if Rk(Claim(app, ms[0].key)) in ledger then 1 else 2) + RecordCalls(app, ledger, ms[1..])
  }

  lemma {:induction false} RecordCallsKept(app: App, l: map<RecKey, Record>, m: map<RecKey, Record>, ms: seq<Manifest>)
    requires forall x | x in ms :: Rk(Claim(app, x.key)) in l <==> Rk(Claim(app, x.key)) in m
    ensures RecordCalls(app, l, ms) == RecordCalls(app, m, ms)
  {
    if ms != [] {
      assert ms[0] in ms;
      RecordCallsKept(app, l, m, ms[1..]);
    }
  }

  lemma {:induction false} RecordAllCalls(env: Env, app: App, p: Pass, ms: seq<Manifest>, claims: set<Claim>)
    requires Separate(claims) && Inv(p.w, claims) && Within(app, ms, claims) && Distinct(ms)
    ensures var o := H.RecordAll(env, app, p, ms);
            o.ok ==> o.p.w.clock == p.w.clock + RecordCalls(app, p.w.ledger, ms)
    decreases ms
  {
    if ms != [] {
      var c := Claim(app, ms[0].key);
      var r := UpdateRecord(env, p.w, c);
      UpdateRecordKeeps(env, p.w, c, claims);
      if r.reply == Done {
        var q := p.(w := r.w, updated := p.updated + {RecordName(app, ms[0].key)});
        forall x | x in ms[1..]
          ensures Rk(Claim(app, x.key)) in p.w.ledger <==> Rk(Claim(app, x.key)) in r.w.ledger
        {
          assert Claim(app, x.key) in claims && x.key != ms[0].key;
        }
        RecordAllCalls(env, app, q, ms[1..], claims);
        RecordCallsKept(app, p.w.ledger, r.w.ledger, ms[1..]);
      }
    }
  }

  /** The calls before the chart is rendered, and that one. */
  function LeadCalls(clone: H.Clone): nat {
    if clone == H.Unreadable then 3 else 4
  }

  lemma ReadyCalls(env: Env, w: World, clone: H.Clone)
    ensures var (v, end) := H.Ready(env, w, clone);
            && (end == H.Ok <==> Quiet(env, w.clock, w.clock + LeadCalls(clone)))
            && (end == H.Panic <==> Quiet(env, w.clock, w.clock + LeadCalls(clone) - 1)
                                    && env.fails(w.clock + LeadCalls(clone) - 1))
            && (end == H.Ok ==> v == w.(clock := w.clock + LeadCalls(clone)))
  {
    var c := H.PrepareRepo(env, w, clone);
    if c.reply == Done {
      assert !env.fails(c.w.clock) <==> Fetch(env, c.w).reply == Done;
      assert forall i | w.clock <= i < c.w.clock :: !env.fails(i);
      assert c.w.clock + 3 == w.clock + LeadCalls(clone);
      ThreeCalls(env, w.clock, c.w.clock);
    } else {
      assert env.fails(w.clock);
    }
  }

  lemma ThreeCalls(env: Env, lo: nat, hi: nat)
    requires Quiet(env, lo, hi) && lo <= hi
    ensures Quiet(env, lo, hi + 2) <==> !env.fails(hi) && !env.fails(hi + 1)
    ensures Quiet(env, lo, hi + 3) <==> !env.fails(hi) && !env.fails(hi + 1) && !env.fails(hi + 2)
  {
  }

  /** The same job without leave to apply: what comes before the install. */
  function Bare(job: Job): Job {
    job.(autoSync := false, forced := false)
  }

  /** How a Helm pass ends, and with what status: it is Synced if it may apply and succeeds, and as
      before otherwise; it panics exactly if rendering is the first call to fail, or if it may
      apply, all else succeeds, and the install that comes last fails. */
  lemma HelmEnds(env: Env, job: Job, w: World, status: Status, clone: H.Clone, docs: seq<H.Document>,
                 listing: seq<Listed>)
    ensures var o := H.HelmSync(env, job, w, status, clone, docs, listing);
            var bare := H.HelmSync(env, Bare(job), w, status, clone, docs, listing);
            var lead := LeadCalls(clone);
            && o.status == (if o.end == H.Ok && (job.autoSync || job.forced) then Synced else status)
            && (o.end == H.Panic <==>
                  || (Quiet(env, w.clock, w.clock + lead - 1) && env.fails(w.clock + lead - 1))
                  || ((job.autoSync || job.forced) && bare.end == H.Ok && env.fails(bare.w.clock)))
            && (o.end == H.Ok <==> bare.end == H.Ok && ((job.autoSync || job.forced) ==> !env.fails(bare.w.clock)))
            && (bare.end == H.Ok ==>
                  o.w == if job.autoSync || job.forced then Tick(bare.w) else bare.w)
  {
    ReadyCalls(env, w, clone);
  }

  /** A Helm pass over distinct objects that succeeds makes exactly so many calls. */
  lemma HelmCalls(env: Env, job: Job, w: World, status: Status, clone: H.Clone, docs: seq<H.Document>,
                  listing: seq<Listed>, claims: set<Claim>)
    requires Separate(claims) && Inv(w, claims) && Claimant(job.app, claims)
    requires Within(job.app, H.Rendered(docs), claims) && Distinct(H.Rendered(docs))
    requires IsListing(w.ledger, Label(job.app), listing)
    ensures var o := H.HelmSync(env, job, w, status, clone, docs, listing);
            o.end == H.Ok ==>
              o.w.clock == w.clock + LeadCalls(clone) + DecodeCalls(docs)
                           + RecordCalls(job.app, w.ledger, H.Rendered(docs))
                           + StaleCalls(w.target, listing, Names(job.app, H.Rendered(docs)))
                           + (if job.autoSync || job.forced then 1 else 0)
  {
    if H.HelmSync(env, job, w, status, clone, docs, listing).end == H.Ok {
      ReadyCalls(env, w, clone);
      var (w0, _) := H.Ready(env, w, clone);
      var decoded := H.DecodeAll(env, w0, docs);
      DecodeAllCalls(env, w0, docs);
      H.DecodeKeeps(env, job.app, w0, docs, claims);
      BookkeepingCalls(env, job.app, Pass(decoded.w, status, {}), H.Rendered(docs), listing, claims);
    }
  }

  lemma BookkeepingCalls(env: Env, app: App, p: Pass, ms: seq<Manifest>, listing: seq<Listed>, claims: set<Claim>)
    requires Separate(claims) && Inv(p.w, claims) && Claimant(app, claims)
    requires Within(app, ms, claims) && Distinct(ms) && p.updated == {}
    requires IsListing(p.w.ledger, Label(app), listing)
    ensures var o := H.RecordAll(env, app, p, ms);
            var r := Prune(env, o.p.w, listing, o.p.updated);
            o.ok && r.reply == Done ==>
              r.w.clock == p.w.clock + RecordCalls(app, p.w.ledger, ms)
                           + StaleCalls(p.w.target, listing, Names(app, ms))
  {
    var o := H.RecordAll(env, app, p, ms);
    if o.ok {
      RecordAllCalls(env, app, p, ms, claims);
      H.RecordAllKeeps(env, app, p, ms, claims);
      PruneAfterCalls(env, app, ms, claims, p, o.p, listing);
    }
  }

  lemma {:induction false} DropCalls(env: Env, w: World, listing: seq<Listed>)
    ensures var r := H.DropRecords(env, w, listing);
            r.reply == Done ==> r.w.clock == w.clock + |listing|
    decreases listing
  {
    if listing != [] {
      DropCalls(env, DeleteRecord(env, w, listing[0].rk).w, listing[1..]);
    }
  }

  lemma HelmClearCalls(env: Env, w: World, listing: seq<Listed>)
    ensures var r := H.HelmClear(env, w, listing);
            r.reply == Done ==> r.w.clock == w.clock + 3 + |listing|
  {
    var c := H.BeforeDrop(env, w);
    if c.reply == Done {
      DropCalls(env, c.w, listing);
    }
  }
}
